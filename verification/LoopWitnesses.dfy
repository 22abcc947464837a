/** Runs of the live loop that end where one might not expect. */
module LoopWitnesses {
  import opened Wrappers
  import opened Utf8
  import opened SharedText
  import opened Paths
  import opened FileTree
  import opened TreeEdits
  import opened Docs
  import opened Workspaces
  import opened Exports
  import opened Seeding
  import opened Watching
  import opened Batches
  import opened LiveLoops
  import opened LoopRuns
  import opened Crossings

  function NothingIgnored(): Ignorer {
    (p, isDir) => false
  }

  lemma NothingSkipped(p: Path, isDir: bool)
    ensures !Skips(NothingIgnored(), p, isDir)
  {
  }

  // ---- a doc with one file ----

  function Empty(): Tree {
    Tree(map[], [])
  }

  lemma EmptyDoc()
    ensures Empty().WellFormed() && GoodHistory([Empty()], 0)
    ensures forall cs :: Walk(Empty(), Root, cs) == if cs == [] then Some(Root) else None
  {
    var rank: map<NodeId, nat> := map[];
    assert Empty().Ranked(rank);
  }

  /** A file `f` at the top, still empty. */
  function OneFile(): Tree {
    Empty().Create(0, Root, "f", File, Some([]))
  }

  lemma OneFileDoc()
    ensures GoodHistory([Empty(), OneFile()], 1)
    ensures forall cs ::
      Walk(OneFile(), Root, cs) == if cs == [] then Some(Root) else if cs == ["f"] then Some(Under(0)) else None
  {
    EmptyDoc();
    assert [] + ["f"] == ["f"];
    CreateCarries([Empty()], 0, Root, "f", File);
    assert [Empty()] + [OneFile()] == [Empty(), OneFile()];
    forall cs ensures Walk(OneFile(), Root, cs) == if cs == ["f"] then Some(Under(0)) else Walk(Empty(), Root, cs) {
      CreateEffect(Empty(), 0, [], Root, "f", File, Some([]), cs);
    }
  }

  /** `t` with its file reading `live`, one step later. */
  lemma NextText(h: seq<Tree>, base: Frontier, script: seq<Edit>, live: Text, out: Text)
    requires GoodHistory(h, 1) && base < |h| && 0 in Last(h).nodes && Last(h).nodes[0].content == Some(live)
    requires Merged(live, base, script, |h|, out)
    ensures var t := Last(h).WithContent(0, out);
      && GoodHistory(h + [t], 1) && t.WellFormed()
      && forall cs :: Walk(t, Root, cs) == Walk(Last(h), Root, cs)
  {
    hide Tree.WellFormed, Merged;
    var t := Last(h).WithContent(0, out);
    EditCarries(h, 1, 0, base, script, out);
    forall cs ensures Walk(t, Root, cs) == Walk(Last(h), Root, cs) && t.WellFormed() {
      ContentEffect(Last(h), 0, out, cs);
    }
  }

  // ---- a peer's text that a second ingest undoes ----

  const F: Path := ["f"]

  /** Disk holds `text` in `f`, last crossed at `base`, and the doc has history `h`. */
  function FileWorld(h: seq<Tree>, text: string, base: Frontier): World {
    World(h, 1, map[F := Encode(text)], {}, map[F := Base(base, 0)], {})
  }

  ghost predicate FileDoc(h: seq<Tree>, live: Text) {
    && GoodHistory(h, 1) && |h| >= 2 && h[1] == OneFile()
    && (forall cs :: Walk(Last(h), Root, cs) ==
          if cs == [] then Some(Root) else if cs == F then Some(Under(0)) else None)
    && 0 in Last(h).nodes && Last(h).nodes[0].content == Some(live)
  }

  lemma FileIsThere()
    ensures ValidPath(F) && OutsideEg(F)
  {
    assert F[0] == "f" && ValidName("f");
  }

  /** One more text of the file. */
  lemma FileDocGrows(h: seq<Tree>, base: Frontier, script: seq<Edit>, live: Text, out: Text)
    requires FileDoc(h, live) && base < |h| && Merged(live, base, script, |h|, out)
    ensures FileDoc(h + [Last(h).WithContent(0, out)], out)
  {
    hide Merged;
    NextText(h, base, script, live, out);
  }

  /** Ingesting `f` merges what disk says into the doc and moves the base up. */
  lemma FileIngested(h: seq<Tree>, text: string, base: Frontier, script: seq<Edit>, live: Text, out: Text)
    returns (trace: seq<DocState>)
    requires FileDoc(h, live) && base < |h| && ContentAt(h, 0, base).Some?
    requires Patch(script, TextAt(live, base)) == Some(text) && Merged(live, base, script, |h|, out)
    requires Visible(live) != text && TextAt(live, base) != text
    ensures Ingested(FileWorld(h, text, base), FileWorld(h + [Last(h).WithContent(0, out)], text, |h|), [F], trace)
    ensures Takeable(FileWorld(h, text, base))
  {
    hide Tree.WellFormed, Stamped, Carries, Merged, Patch, TextAt, Visible, Encode, Decode, Walk;
    var t := Last(h).WithContent(0, out);
    var w := FileWorld(h, text, base);
    FileIsThere();
    FileDocGrows(h, base, script, live, out);
    Utf8Codec(text, Encode(text));
    trace := [DocState(h, 1), DocState(h + [t], 1)];
    var s := Source(w.files, w.dirs, w.bases);
    assert TookFile(s.bases, F, text, trace[0], trace[1]);
    assert Step(s, F, trace[0], trace[1]);
    assert StepAt(s, [F], trace, 0);
    assert Run(s, [F], trace);
    assert |h + [t]| - 1 == |h|;
  }

  /** The peer's `x`, put in at frontier 2, and the local `y`, merged in front of it at frontier 3. */
  const X := Elem('x', 2, None)
  const Y := Elem('y', 3, None)

  lemma PeerTypes()
    ensures Merged([], 1, [Put('x')], 2, [X]) && TextAt([X], 1) == "" && Visible([X]) == "x"
  {
    assert [X][1..] == [] && [Put('x')][1..] == [];
  }

  lemma FirstMerge()
    ensures Patch([Put('y')], "") == Some("y") && Merged([X], 1, [Put('y')], 3, [Y, X]) && Visible([Y, X]) == "yx"
  {
    var none: seq<Edit> := [];
    assert [Put('y')][1..] == none && [Y, X][1..] == [X] && [X][1..] == [];
    assert Patch(none, "") == Some("") && ['y'] + "" == "y";
    assert Merged([X], 1, none, 3, [X]);
    assert Visible([X]) == "x";
  }

  lemma SecondMerge()
    ensures TextAt([Y, X], 3) == "yx" && Patch([Keep, Drop], "yx") == Some("y")
    ensures Merged([Y, X], 3, [Keep, Drop], 4, [Y, Kill(X, 4)]) && Visible([Y, Kill(X, 4)]) == "y"
  {
    assert [Y, X][1..] == [X] && [X][1..] == [] && [Keep, Drop][1..] == [Drop] && [Drop][1..] == [];
    assert [Y, Kill(X, 4)][1..] == [Kill(X, 4)] && [Kill(X, 4)][1..] == [];
    assert Merged([X], 3, [Drop], 4, [Kill(X, 4)]);
    assert TextAt([X], 3) == "x" && Visible([X]) == "x";
    assert "yx"[1..] == "x" && "x"[1..] == "";
    assert Patch([Drop], "x") == Some("") && ['y'] + "" == "y";
  }

  /**
   A second ingest before an egress loses a peer's text. Disk and doc agree that
   `f` is empty; a peer types `x`; a program writes `y`. The first ingest merges
   both. The second, of the same bytes, diffs them against the merged text, and
   the peer's `x` is deleted.
   */
  lemma SecondIngestLoses() returns (events: seq<Event>, worlds: seq<World>)
    ensures events == [PeerEdits, DiskEdits, Ingest([F]), Ingest([F])] && LoopRun(NothingIgnored(), events, worlds)
    ensures forall w | w in worlds :: w.history != [] && NodeAt(Last(w.history), F) == Some(0)
    ensures SetHere(worlds[0], F) && Agrees(worlds[0], F, 0)
    ensures TextNow(Last(worlds[1].history), 0) == Some("x")
    ensures forall k | 2 <= k <= 4 :: F in worlds[k].files && worlds[k].files[F] == Encode("y")
    ensures TextNow(Last(worlds[3].history), 0) == Some("yx") && TextNow(Last(worlds[4].history), 0) == Some("y")
  {
    hide FileDoc, Encode, Merged, Patch, Walk, Visible, TextAt, LoopStep, GoodWorld, NodeAt, TextNow, ContentAt;
    PeerTypes();
    FirstMerge();
    SecondMerge();
    var h0, h1, h2, h3 := LossHistories();
    events := [PeerEdits, DiskEdits, Ingest([F]), Ingest([F])];
    worlds := [FileWorld(h0, "", 1), FileWorld(h1, "", 1), FileWorld(h1, "y", 1), FileWorld(h2, "y", 3),
      FileWorld(h3, "y", 4)];
    PeerGoesOn(h0, h1, "", 1, [], [X]);
    ProgramWrites(h1, "", "y", 1, [X]);
    FileWorldGood(h0, "", 1, []);
    FileWorldGood(h1, "", 1, [X]);
    FileWorldGood(h1, "y", 1, [X]);
    FileWorldGood(h2, "y", 3, [Y, X]);
    FileWorldGood(h3, "y", 4, [Y, Kill(X, 4)]);
    FileTaken(h1, "y", 1, [Put('y')], [X], [Y, X]);
    FileTaken(h2, "y", 3, [Keep, Drop], [Y, X], [Y, Kill(X, 4)]);
    LossStart(h0);
    forall i | 0 <= i < 4 ensures StepOf(NothingIgnored(), events, worlds, i) {
    }
  }

  lemma LossStart(h: seq<Tree>)
    requires h == [Empty(), OneFile()] && FileDoc(h, [])
    ensures SetHere(FileWorld(h, "", 1), F) && Agrees(FileWorld(h, "", 1), F, 0)
  {
    hide Tree.WellFormed, Stamped, Carries, Walk;
    assert Visible([]) == "";
  }

  lemma PeerGoesOn(h: seq<Tree>, h': seq<Tree>, text: string, base: Frontier, live: Text, out: Text)
    requires FileDoc(h, live) && FileDoc(h', out) && h <= h' && base < |h|
    ensures LoopStep(NothingIgnored(), PeerEdits, FileWorld(h, text, base), FileWorld(h', text, base))
  {
    hide Tree.WellFormed, Stamped, Carries, Walk, Encode;
    FileWorldGood(h, text, base, live);
  }

  lemma ProgramWrites(h: seq<Tree>, was: string, text: string, base: Frontier, live: Text)
    requires FileDoc(h, live) && base < |h|
    ensures LoopStep(NothingIgnored(), DiskEdits, FileWorld(h, was, base), FileWorld(h, text, base))
  {
    hide Tree.WellFormed, Stamped, Carries, Walk, Encode;
    FileWorldGood(h, text, base, live);
  }

  lemma FileTaken(h: seq<Tree>, text: string, base: Frontier, script: seq<Edit>, live: Text, out: Text)
    requires FileDoc(h, live) && base < |h| && ContentAt(h, 0, base).Some?
    requires Patch(script, TextAt(live, base)) == Some(text) && Merged(live, base, script, |h|, out)
    requires Visible(live) != text && TextAt(live, base) != text
    ensures var h' := h + [Last(h).WithContent(0, out)];
      LoopStep(NothingIgnored(), Ingest([F]), FileWorld(h, text, base), FileWorld(h', text, |h|))
  {
    hide Tree.WellFormed, Stamped, Carries, Walk, Encode, Merged, Patch, TextAt, Visible, Run, Advanced;
    var trace := FileIngested(h, text, base, script, live, out);
    FileDocGrows(h, base, script, live, out);
    FileWorldGood(h + [Last(h).WithContent(0, out)], text, |h|, out);
    FileIsThere();
  }

  function Reads(live: Text): Tree {
    OneFile().WithContent(0, live)
  }

  lemma LossHistories() returns (h0: seq<Tree>, h1: seq<Tree>, h2: seq<Tree>, h3: seq<Tree>)
    ensures h0 == [Empty(), OneFile()] && FileDoc(h0, [])
    ensures h1 == h0 + [Reads([X])] && FileDoc(h1, [X])
    ensures h2 == h1 + [Last(h1).WithContent(0, [Y, X])] && h2 == h1 + [Reads([Y, X])] && FileDoc(h2, [Y, X])
    ensures h3 == h2 + [Last(h2).WithContent(0, [Y, Kill(X, 4)])] && FileDoc(h3, [Y, Kill(X, 4)])
    ensures h3 == h2 + [Reads([Y, Kill(X, 4)])]
  {
    hide FileDoc, Merged, Patch;
    PeerTypes();
    FirstMerge();
    SecondMerge();
    StartsEmpty();
    h0 := [Empty(), OneFile()];
    h1 := h0 + [Reads([X])];
    FileDocGrows(h0, 1, [Put('x')], [], [X]);
    h2 := h1 + [Reads([Y, X])];
    assert Last(h1).WithContent(0, [Y, X]) == Reads([Y, X]);
    FileDocGrows(h1, 1, [Put('y')], [X], [Y, X]);
    h3 := h2 + [Reads([Y, Kill(X, 4)])];
    assert Last(h2).WithContent(0, [Y, Kill(X, 4)]) == Reads([Y, Kill(X, 4)]);
    FileDocGrows(h2, 3, [Keep, Drop], [Y, X], [Y, Kill(X, 4)]);
  }

  lemma FileWorldGood(h: seq<Tree>, text: string, base: Frontier, live: Text)
    requires FileDoc(h, live) && base < |h|
    ensures GoodWorld(FileWorld(h, text, base)) && GoodDisk(map[F := Encode(text)], {})
    ensures NodeAt(Last(h), F) == Some(0) && TextNow(Last(h), 0) == Some(Visible(live))
    ensures ContentAt(h, 0, 1).Some? && ContentAt(h, 0, |h| - 1).Some?
  {
    hide Tree.WellFormed, Stamped, Carries, Walk, Encode;
    FileIsThere();
  }

  lemma StartsEmpty()
    ensures FileDoc([Empty(), OneFile()], [])
  {
    OneFileDoc();
  }

  // ---- a deleted directory that a late report brings back ----

  const D: Path := ["d"]
  const DF: Path := ["d", "f"]

  function DirOnly(): Tree {
    Empty().Create(0, Root, "d", Dir, None)
  }

  function DirAndFile(): Tree {
    DirOnly().Create(1, Under(0), "f", File, Some([]))
  }

  function DirDeleted(): Tree {
    DirAndFile().Deleted(0)
  }

  function DirBack(): Tree {
    DirDeleted().Create(2, Root, "d", Dir, None)
  }

  function Before2(): seq<Tree> {
    [Empty(), DirOnly(), DirAndFile()]
  }

  lemma DirAndFileDoc()
    ensures GoodHistory(Before2(), 2)
    ensures forall cs :: (Walk(DirAndFile(), Root, cs) ==
      if cs == [] then Some(Root) else if cs == D then Some(Under(0)) else if cs == DF then Some(Under(1)) else None)
  {
    hide Walk;
    EmptyDoc();
    assert [] + ["d"] == D && D + ["f"] == DF;
    NoChild(Empty(), [], Root, "d");
    CreateCarries([Empty()], 0, Root, "d", Dir);
    assert [Empty()] + [DirOnly()] == [Empty(), DirOnly()];
    forall cs ensures Walk(DirOnly(), Root, cs) == if cs == D then Some(Under(0)) else Walk(Empty(), Root, cs) {
      CreateEffect(Empty(), 0, [], Root, "d", Dir, None, cs);
    }
    NoChild(DirOnly(), D, Under(0), "f");
    CreateCarries([Empty(), DirOnly()], 1, Under(0), "f", File);
    assert [Empty(), DirOnly()] + [DirAndFile()] == Before2();
    forall cs ensures Walk(DirAndFile(), Root, cs) == if cs == DF then Some(Under(1)) else Walk(DirOnly(), Root, cs) {
      CreateEffect(DirOnly(), 1, D, Under(0), "f", File, Some([]), cs);
    }
  }

  lemma NoChild(t: Tree, at: Path, p: Place, name: string)
    requires Walk(t, Root, at) == Some(p) && Walk(t, Root, at + [name]) == None
    ensures t.ChildNamed(p, name) == None
  {
    WalkConcat(t, Root, at, [name]);
  }

  lemma DirDeletedDoc()
    ensures GoodHistory(Before2() + [DirDeleted()], 2) && DirDeleted().WellFormed()
    ensures forall cs :: Walk(DirDeleted(), Root, cs) == if cs == [] then Some(Root) else None
  {
    hide Walk, Tree.WellFormed, Stamped, Carries;
    DirAndFileDoc();
    DeleteWellFormed(DirAndFile(), 0);
    AppendMoves(Before2(), 2, [DirDeleted()]);
    forall cs ensures Walk(DirDeleted(), Root, cs) == if D <= cs then None else Walk(DirAndFile(), Root, cs) {
      DeleteEffect(DirAndFile(), 0, D, cs);
    }
    assert D <= DF;
  }

  lemma DirBackDoc()
    ensures GoodHistory(Before2() + [DirDeleted(), DirBack()], 3)
    ensures forall cs ::
      Walk(DirBack(), Root, cs) == if cs == [] then Some(Root) else if cs == D then Some(Under(2)) else None
  {
    hide Walk, Tree.WellFormed, Stamped, Carries, DirDeleted;
    DirDeletedDoc();
    assert [] + ["d"] == D;
    NoChild(DirDeleted(), [], Root, "d");
    CreateCarries(Before2() + [DirDeleted()], 2, Root, "d", Dir);
    assert Before2() + [DirDeleted()] + [DirBack()] == Before2() + [DirDeleted(), DirBack()];
    forall cs ensures Walk(DirBack(), Root, cs) == if cs == D then Some(Under(2)) else Walk(DirDeleted(), Root, cs) {
      CreateEffect(DirDeleted(), 2, [], Root, "d", Dir, None, cs);
    }
  }

  /** The directory with its empty file on disk, both tracked since frontier 2. */
  function DirWorld(h: seq<Tree>, next: NodeId): World {
    World(h, next, map[DF := []], {D}, map[DF := Base(2, 1)], {D})
  }

  /** Nothing left of it but the directory. */
  function BareWorld(h: seq<Tree>): World {
    World(h, 3, map[], {D}, map[], {D})
  }

  lemma DirDisk()
    ensures GoodDisk(map[DF := []], {D}) && GoodDisk(map[], {D}) && ValidPath(DF) && OutsideEg(D) && OutsideEg(DF)
    ensures Encode("") == [] && Decode([]) == Some("") && D < DF && Parent(DF) == D
  {
    assert ValidName("d") && ValidName("f");
    assert DF[0] == "d" && D[0] == "d";
    assert Parent(DF) == D && DF != D;
    assert AllValid(DF) && AllValid(D);
    var files: map<Path, seq<byte>> := map[DF := []];
    assert forall p | p in files :: p == DF;
  }

  lemma EchoOfEmpty(h: seq<Tree>)
    requires Before2() <= h
    ensures IsEcho(h, Base(2, 1), [])
  {
    assert h[2] == DirAndFile() && Visible([]) == "";
  }

  lemma DirWorldGood(h: seq<Tree>, next: NodeId)
    requires GoodHistory(h, next) && Before2() <= h
    ensures GoodWorld(DirWorld(h, next))
  {
    hide GoodHistory;
    DirDisk();
  }

  lemma PeerDeletes()
    ensures LoopStep(NothingIgnored(), PeerEdits, DirWorld(Before2(), 2), DirWorld(Before2() + [DirDeleted()], 2))
    ensures GoodWorld(DirWorld(Before2(), 2)) && NodeAt(DirAndFile(), D) == Some(0)
      && NodeAt(DirAndFile(), DF) == Some(1)
    ensures Fallen(DirWorld(Before2() + [DirDeleted()], 2), D)
  {
    hide GoodHistory, Walk, IsEcho, Encode, DirAndFile, DirDeleted, GoodWorld;
    DirAndFileDoc();
    DirDeletedDoc();
    DirDisk();
    DirWorldGood(Before2(), 2);
    assert Last(Before2()) == DirAndFile() && Last(Before2() + [DirDeleted()]) == DirDeleted();
    EchoOfEmpty(Before2() + [DirDeleted()]);
  }

  lemma RemadeD()
    ensures MadeDirs(DirDeleted(), DirBack(), D) && Last(Before2() + [DirDeleted()]) == DirDeleted()
    ensures NodeAt(DirDeleted(), DF) == None && Walk(DirDeleted(), Root, D) == None && NodeAt(DirBack(), DF) == None
  {
    hide Walk, Tree.WellFormed, MadeDirs;
    DirDeletedDoc();
    DirBackDoc();
    MadeNone(DirDeleted());
    NoChild(DirDeleted(), [], Root, "d");
    assert [] + ["d"] == D;
    MadeOneMore(DirDeleted(), DirDeleted(), [], Root, "d", 2);
  }

  lemma DFStep(h: seq<Tree>)
    requires h == Before2() + [DirDeleted()]
    ensures Step(Source(map[DF := []], {D}, map[DF := Base(2, 1)]), DF, DocState(h, 2), DocState(h + [DirBack()], 3))
  {
    hide GoodHistory, Walk, IsEcho, Encode, Decode, MadeDirs, DirDeleted, DirBack, Before2;
    DirDeletedDoc();
    DirBackDoc();
    DirDisk();
    EchoOfEmpty(h);
    RemadeD();
    assert h + [DirBack()] == Before2() + [DirDeleted(), DirBack()];
    assert TookFile(map[DF := Base(2, 1)], DF, "", DocState(h, 2), DocState(h + [DirBack()], 3));
  }

  lemma LateReport() returns (trace: seq<DocState>)
    ensures var h := Before2() + [DirDeleted()];
      && Ingested(DirWorld(h, 2), DirWorld(h + [DirBack()], 3), [DF], trace)
      && LoopStep(NothingIgnored(), Ingest([DF]), DirWorld(h, 2), DirWorld(h + [DirBack()], 3))
  {
    hide GoodHistory, Walk, Step, DirDeleted, DirBack, Before2;
    var h := Before2() + [DirDeleted()];
    RemadeD();
    DirDisk();
    DFStep(h);
    DirBackDoc();
    assert h + [DirBack()] == Before2() + [DirDeleted(), DirBack()];
    trace := [DocState(h, 2), DocState(h + [DirBack()], 3)];
    assert StepAt(Source(map[DF := []], {D}, map[DF := Base(2, 1)]), [DF], trace, 0);
  }

  /** The tree shows the directory and nothing else. */
  lemma OnlyDShown(p: Path)
    ensures FileAt(DirBack(), NothingIgnored(), p) == None && (DirAt(DirBack(), NothingIgnored(), p).Some? <==> p == D)
  {
    hide GoodHistory, Walk, Skips, DirDeleted, Before2;
    DirBackDoc();
    DirDisk();
    NothingSkipped(p, true);
    NothingSkipped(p, false);
  }

  lemma DirStays()
    ensures var h := Before2() + [DirDeleted(), DirBack()];
      LoopStep(NothingIgnored(), Egress, DirWorld(h, 3), BareWorld(h))
  {
    hide GoodHistory, Walk, IsEcho, Encode, Shown, FileAt, DirAt, DirDeleted, DirBack, Before2;
    var h := Before2() + [DirDeleted(), DirBack()];
    assert Last(h) == DirBack();
    DirBackDoc();
    DirDisk();
    EchoOfEmpty(h);
    forall p ensures
      FileAt(DirBack(), NothingIgnored(), p) == None && (DirAt(DirBack(), NothingIgnored(), p).Some? <==> p == D) {
      OnlyDShown(p);
    }
  }

  /**
   A late report brings a deleted directory back. A peer deletes `d` with its
   file; the unmodified file is then reported. The file is skipped as an echo,
   but `d` gets a new node, and the next egress takes the file off the disk and
   keeps the directory.
   */
  lemma LateReportRevives() returns (events: seq<Event>, worlds: seq<World>)
    ensures events == [PeerEdits, Ingest([DF]), Egress] && LoopRun(NothingIgnored(), events, worlds)
    ensures forall w | w in worlds :: w.history != [] && D in w.dirs
    ensures NodeAt(Last(worlds[0].history), D) == Some(0) && DF in worlds[0].files
    ensures Fallen(worlds[1], D)
    ensures forall k | 2 <= k <= 3 ::
      NodeAt(Last(worlds[k].history), D) == Some(2) && 2 !in Last(worlds[1].history).nodes
    ensures NodeAt(Last(worlds[3].history), DF) == None && DF !in worlds[3].files
  {
    hide LoopStep, Fallen, GoodWorld, Walk, Before2, DirDeleted, DirBack, NodeAt;
    var h0, h1 := Before2(), Before2() + [DirDeleted()];
    var h2 := h1 + [DirBack()];
    assert h2 == Before2() + [DirDeleted(), DirBack()];
    events := [PeerEdits, Ingest([DF]), Egress];
    worlds := [DirWorld(h0, 2), DirWorld(h1, 2), DirWorld(h2, 3), BareWorld(h2)];
    PeerDeletes();
    var _ := LateReport();
    DirStays();
    LateTips();
    forall i | 0 <= i < 3 ensures StepOf(NothingIgnored(), events, worlds, i) {
    }
  }

  lemma LateTips()
    ensures Before2() != [] && Last(Before2()) == DirAndFile() && 2 !in DirDeleted().nodes
    ensures NodeAt(DirBack(), D) == Some(2) && NodeAt(DirBack(), DF) == None
  {
    hide Walk;
    DirBackDoc();
  }

  // ---- a left-out file that the loop loses ----

  function LeavesOutF(): Ignorer {
    (p, isDir) => p == F
  }

  lemma FLeftOut()
    ensures Skips(LeavesOutF(), F, false)
  {
  }

  /** The doc after the left-out file was taken in, and after its removal was. */
  function Taken(): seq<Tree> {
    [Empty(), OneFile(), Reads([X])]
  }

  function TakenAway(): seq<Tree> {
    Taken() + [Reads([X]).Deleted(0)]
  }

  function BeforeWorld(): World {
    World([Empty()], 0, map[F := Encode("x")], {}, map[], {})
  }

  function TakenWorld(): World {
    World(Taken(), 1, map[F := Encode("x")], {}, map[F := Base(2, 0)], {})
  }

  function LostWorld(h: seq<Tree>): World {
    World(h, 1, map[], {}, map[], {})
  }

  lemma TakenDoc()
    ensures FileDoc(Taken(), [X]) && Last(Taken()) == Reads([X]) && Visible([X]) == "x"
  {
    hide FileDoc;
    PeerTypes();
    var h0, h1, h2, h3 := LossHistories();
    assert h1 == Taken();
  }

  lemma TakenAwayDoc()
    ensures GoodHistory(TakenAway(), 1) && 0 in Reads([X]).nodes
    ensures NodeAt(Reads([X]).Deleted(0), F) == None
  {
    hide Walk, Tree.WellFormed, Stamped, Carries;
    TakenDoc();
    var t := Reads([X]);
    DeleteWellFormed(t, 0);
    AppendMoves(Taken(), 1, [t.Deleted(0)]);
    DeleteEffect(t, 0, F, F);
  }

  /** Ingest does not ask whether the file is left out. */
  lemma LeftOutTaken()
    ensures GoodWorld(BeforeWorld()) && LoopStep(LeavesOutF(), Ingest([F]), BeforeWorld(), TakenWorld())
  {
    hide GoodHistory, Walk, Encode, Decode, Visible;
    FileIsThere();
    EmptyDoc();
    TakenDoc();
    Utf8Codec("x", Encode("x"));
    var w, w' := BeforeWorld(), TakenWorld();
    var s := Source(w.files, w.dirs, w.bases);
    var trace := [DocState([Empty()], 0), DocState(Taken(), 1)];
    assert Minted(Empty(), Reads([X]), F, "x");
    assert TookFile(s.bases, F, "x", trace[0], trace[1]);
    assert Step(s, F, trace[0], trace[1]);
    assert StepAt(s, [F], trace, 0);
    assert Ingested(w, w', [F], trace);
  }

  lemma NothingShown(p: Path)
    ensures FileAt(Reads([X]), LeavesOutF(), p) == None && DirAt(Reads([X]), LeavesOutF(), p) == None
  {
    hide GoodHistory, Walk, Skips;
    TakenDoc();
    FLeftOut();
  }

  /** Egress does not write it, and so prunes it. */
  lemma LeftOutPruned()
    ensures LoopStep(LeavesOutF(), Egress, TakenWorld(), LostWorld(Taken()))
  {
    hide GoodHistory, Walk, Encode, Visible, Shown, FileAt, DirAt, FileDoc, IsEcho, Reads;
    TakenDoc();
    TakenGood();
    forall p ensures FileAt(Reads([X]), LeavesOutF(), p) == None && DirAt(Reads([X]), LeavesOutF(), p) == None {
      NothingShown(p);
    }
  }

  lemma TakenGood()
    ensures IsEcho(Taken(), Base(2, 0), Encode("x"))
    ensures GoodHistory(Taken(), 1) && 0 in Reads([X]).nodes && Reads([X]).nodes[0].content == Some([X])
    ensures NodeAt(Reads([X]), F) == Some(0) && TextNow(Reads([X]), 0) == Some("x")
  {
    hide GoodHistory, Walk, Visible, Encode;
    TakenDoc();
  }

  /** The removal is reported like any other. */
  lemma LeftOutDeleted()
    ensures LoopStep(LeavesOutF(), Ingest([F]), LostWorld(Taken()), LostWorld(TakenAway()))
  {
    hide GoodHistory, Walk;
    FileIsThere();
    TakenDoc();
    TakenAwayDoc();
    var s := Source(map[], {}, map[]);
    var trace := [DocState(Taken(), 1), DocState(TakenAway(), 1)];
    assert Step(s, F, trace[0], trace[1]);
    assert StepAt(s, [F], trace, 0);
    assert Ingested(LostWorld(Taken()), LostWorld(TakenAway()), [F], trace);
  }

  /**
   A left-out file is lost. A program writes `f`, which is to be left out. It is
   reported and taken in; the next egress takes it off the disk; that is reported
   in turn, and the doc drops it too.
   */
  lemma LeftOutFileIsLost() returns (events: seq<Event>, worlds: seq<World>)
    ensures events == [Ingest([F]), Egress, Ingest([F])] && LoopRun(LeavesOutF(), events, worlds)
    ensures Skips(LeavesOutF(), F, false) && worlds[0].files == map[F := Encode("x")]
    ensures forall w | w in worlds :: w.history != []
    ensures NodeAt(Last(worlds[0].history), F) == None && NodeAt(Last(worlds[1].history), F) == Some(0)
    ensures TextNow(Last(worlds[1].history), 0) == Some("x")
    ensures worlds[2].files == map[] && worlds[3].files == map[] && NodeAt(Last(worlds[3].history), F) == None
  {
    hide LoopStep, GoodWorld, Walk, Encode, FileDoc, GoodHistory;
    EmptyDoc();
    TakenDoc();
    TakenGood();
    TakenAwayDoc();
    LeftOutTaken();
    LeftOutPruned();
    LeftOutDeleted();
    FLeftOut();
    events := [Ingest([F]), Egress, Ingest([F])];
    worlds := [BeforeWorld(), TakenWorld(), LostWorld(Taken()), LostWorld(TakenAway())];
    forall i | 0 <= i < 3 ensures StepOf(LeavesOutF(), events, worlds, i) {
    }
  }
}
