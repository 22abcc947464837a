/** Merging what changed on disk into the doc. */
module Watching {
  import opened Wrappers
  import opened Utf8
  import opened SharedText
  import opened FileTree
  import opened TreeEdits
  import opened Docs
  import opened Workspaces
  import opened Exports
  import opened Imports
  import opened Seeding

  datatype DocState = DocState(history: seq<Tree>, next: NodeId)

  function StateOf(doc: Doc): DocState
    reads doc
  {
    DocState(doc.history, doc.next)
  }

  // ---- what one changed path does to the doc ----

  /** Whether `bytes` are still what the doc held at `base`. */
  predicate IsEcho(h: seq<Tree>, base: Base, bytes: seq<byte>) {
    var text := ContentAt(h, base.node, base.frontier);
    text.Some? && bytes == Encode(text.value)
  }

  predicate TrackedEcho(h: seq<Tree>, bases: map<Path, Base>, p: Path, bytes: seq<byte>) {
    p in bases && IsEcho(h, bases[p], bytes)
  }

  ghost predicate NewNodeAt(t: Tree, u: Tree, cs: Path, kind: Kind, text: string) {
    && NodeAt(u, cs).Some? && NodeAt(u, cs).value in u.nodes && NodeAt(u, cs).value !in t.nodes
    && u.KindOf(NodeAt(u, cs).value) == Some(kind) && TextOf(u, NodeAt(u, cs).value) == text
    && (kind == File ==> TextNow(u, NodeAt(u, cs).value) == Some(text))
  }

  ghost predicate SameOrNewDir(t: Tree, u: Tree, upTo: Path, cs: Path) {
    || Walk(u, Root, cs) == Walk(t, Root, cs)
    || (cs != [] && cs <= upTo && Walk(t, Root, cs) == None && NewNodeAt(t, u, cs, Dir, ""))
  }

  /** `upTo` leads somewhere, by way of new directories where there was nothing. */
  ghost predicate MadeDirs(t: Tree, u: Tree, upTo: Path) {
    && Grew(t, u) && Walk(u, Root, upTo).Some?
    && forall cs {:trigger SameOrNewDir(t, u, upTo, cs)} :: SameOrNewDir(t, u, upTo, cs)
  }

  /** A new file reading `text` stands at `p`, in directories made as needed. */
  ghost predicate Minted(t: Tree, u: Tree, p: Path, text: string) {
    && p != [] && Grew(t, u) && NewNodeAt(t, u, p, File, text) && Walk(t, Root, p) == None
    && forall cs {:trigger SameOrNewDir(t, u, Parent(p), cs)} :: cs != p ==> SameOrNewDir(t, u, Parent(p), cs)
  }

  function TextNow(t: Tree, n: NodeId): Option<string> {
    if n in t.nodes && t.nodes[n].content.Some? then Some(Visible(t.nodes[n].content.value)) else None
  }

  /** The frontier an edit of `n` is diffed at: the recorded base if `n` was a file there, else now. */
  function DiffBase(h: seq<Tree>, bases: map<Path, Base>, p: Path, n: NodeId): Frontier
    requires h != []
  {
    if p in bases && ContentAt(h, n, bases[p].frontier).Some? then bases[p].frontier else |h| - 1
  }

  /** How the doc takes in the file `text` at `p`. */
  ghost predicate TookFile(bases: map<Path, Base>, p: Path, text: string, a: DocState, b: DocState)
    requires a.history != [] && b.history != [] && p != []
  {
    var t, u := Last(a.history), Last(b.history);
    match NodeAt(t, p)
    case None =>
      if TrackedEcho(a.history, bases, p, Encode(text))
      then MadeDirs(t, u, Parent(p)) && (Walk(t, Root, Parent(p)).Some? ==> b == a)
      else Minted(t, u, p, text)
    case Some(n) =>
      if TextNow(t, n).None? || TextNow(t, n) == Some(text) then b == a
      else Edited(a.history, b.history, n, text, DiffBase(a.history, bases, p, n)) && b.next == a.next
  }

  /** How the doc takes in whatever is at `p` on disk. */
  ghost predicate Applied(files: map<Path, seq<byte>>, dirs: set<Path>, bases: map<Path, Base>, p: Path,
                          a: DocState, b: DocState)
    requires p != []
  {
    && a.history != [] && a.history <= b.history && a.next <= b.next
    && var t, u := Last(a.history), Last(b.history);
    if p in files then
      match Decode(files[p])
      case None => b == a
      case Some(text) => TookFile(bases, p, text, a, b)
    else if p in dirs then
      MadeDirs(t, u, p) && (Walk(t, Root, p).Some? ==> b == a)
    else match NodeAt(t, p)
         case None => b == a
         case Some(n) => n in t.nodes && b == DocState(a.history + [t.Deleted(n)], a.next)
  }

  /** Every directory on disk that has a node has a directory node. */
  ghost predicate DirsMatch(t: Tree, dirs: set<Path>) {
    forall p | p in dirs && NodeAt(t, p).Some? :: t.KindOf(NodeAt(t, p).value) == Some(Dir)
  }

  lemma MadeNone(t: Tree)
    ensures MadeDirs(t, t, [])
  {
  }

  lemma MadeOneMore(t: Tree, u: Tree, at: Path, p: Place, name: string, n: NodeId)
    requires u.WellFormed() && MadeDirs(t, u, at) && Walk(u, Root, at) == Some(p) && n !in u.nodes
    requires (p.Under? ==> u.KindOf(p.parent) == Some(Dir)) && u.ChildNamed(p, name) == None
    ensures u.Create(n, p, name, Dir, None).WellFormed()
    ensures MadeDirs(t, u.Create(n, p, name, Dir, None), at + [name])
    ensures Walk(u.Create(n, p, name, Dir, None), Root, at + [name]) == Some(Under(n))
    ensures Walk(t, Root, at + [name]) == None
  {
    hide Tree.WellFormed;
    var v := u.Create(n, p, name, Dir, None);
    WalkConcat(u, Root, at, [name]);
    assert SameOrNewDir(t, u, at, at + [name]);
    forall cs ensures SameOrNewDir(t, v, at + [name], cs) {
      CreateEffect(u, n, at, p, name, Dir, None, cs);
      assert SameOrNewDir(t, u, at, cs);
    }
    CreateEffect(u, n, at, p, name, Dir, None, at + [name]);
  }

  lemma MadeStays(t: Tree, u: Tree, at: Path, name: string)
    requires MadeDirs(t, u, at) && Walk(u, Root, at + [name]).Some?
    ensures MadeDirs(t, u, at + [name])
  {
    forall cs ensures SameOrNewDir(t, u, at + [name], cs) {
      assert SameOrNewDir(t, u, at, cs);
    }
  }

  /** Make sure there is a directory node for every component of `cs`. */
  method EnsureDir(doc: Doc, cs: Path) returns (p: Place)
    requires doc.Valid()
    requires forall k | 0 < k <= |cs| && NodeAt(doc.Tip(), cs[..k]).Some? ::
      doc.Tip().KindOf(NodeAt(doc.Tip(), cs[..k]).value) == Some(Dir)
    modifies doc
    ensures doc.Valid() && old(doc.history) <= doc.history && old(doc.next) <= doc.next
    ensures MadeDirs(old(doc.Tip()), doc.Tip(), cs)
    ensures Walk(doc.Tip(), Root, cs) == Some(p) && p != Trash && (p.Under? ==> doc.Tip().KindOf(p.parent) == Some(Dir))
    ensures Walk(old(doc.Tip()), Root, cs).Some? ==> StateOf(doc) == old(StateOf(doc))
  {
    hide Tree.WellFormed, Stamped, Carries, MadeDirs;
    p := Root;
    ghost var t := doc.Tip();
    MadeNone(t);
    assert cs[..0] == [];
    for i := 0 to |cs|
      invariant doc.Valid() && old(doc.history) <= doc.history && old(doc.next) <= doc.next
      invariant MadeDirs(t, doc.Tip(), cs[..i])
      invariant Walk(doc.Tip(), Root, cs[..i]) == Some(p) && p != Trash
      invariant p.Under? ==> doc.Tip().KindOf(p.parent) == Some(Dir)
      invariant Walk(t, Root, cs[..i]).Some? ==> StateOf(doc) == old(StateOf(doc))
    {
      ghost var u := doc.Tip();
      ghost var up := cs[..i];
      assert cs[..i + 1] == up + [cs[i]];
      WalkConcat(u, Root, up, [cs[i]]);
      WalkConcat(t, Root, up, [cs[i]]);
      var found := doc.Tip().ChildNamed(p, cs[i]);
      if found.Some? {
        MadeStays(t, u, up, cs[i]);
        FoundDir(t, u, up, cs[i], found.value);
        p := Under(found.value);
      } else {
        var n := doc.CreateNode(p, cs[i], Dir);
        MadeOneMore(t, u, up, p, cs[i], n);
        p := Under(n);
      }
    }
    assert cs[..|cs|] == cs;
  }

  lemma FoundDir(t: Tree, u: Tree, at: Path, name: string, n: NodeId)
    requires MadeDirs(t, u, at) && Walk(u, Root, at + [name]) == Some(Under(n))
    requires t.WellFormed()
    requires NodeAt(t, at + [name]).Some? ==> t.KindOf(NodeAt(t, at + [name]).value) == Some(Dir)
    ensures u.KindOf(n) == Some(Dir)
  {
    assert SameOrNewDir(t, u, at, at + [name]);
    if Walk(t, Root, at + [name]).Some? {
      WalkLast(t, Root, at + [name]);
    }
  }

  // ---- one path ----

  /** Everything `ApplyPath` and `ApplyBatch` ask of doc, disk and bases. */
  ghost predicate Ingestible(h: seq<Tree>, next: NodeId, files: map<Path, seq<byte>>, dirs: set<Path>,
                             bases: map<Path, Base>) {
    && GoodHistory(h, next) && GoodDisk(files, dirs) && DirsMatch(Last(h), dirs)
    && forall p | p in bases :: bases[p].frontier < |h|
  }

  lemma DirsOnTheWay(h: seq<Tree>, next: NodeId, files: map<Path, seq<byte>>, dirs: set<Path>,
                     bases: map<Path, Base>, p: Path, upTo: Path)
    requires Ingestible(h, next, files, dirs, bases) && (p in files || p in dirs)
    requires upTo == (if p in dirs then p else Parent(p))
    ensures forall k | 0 < k <= |upTo| && NodeAt(Last(h), upTo[..k]).Some? ::
      Last(h).KindOf(NodeAt(Last(h), upTo[..k]).value) == Some(Dir)
  {
    hide Tree.WellFormed, Stamped, Carries, Walk;
    AboveAreDirs(files, dirs, p);
    forall k | 0 < k <= |upTo| ensures upTo[..k] in dirs {
      if upTo[..k] != p {
        assert upTo[..k] == p[..k] && p[..k] in Above(p);
      }
    }
  }

  /** `w` is `u` with one more file, `n` at `p`, reading `text`. */
  ghost predicate OneMoreFile(u: Tree, w: Tree, p: Path, n: NodeId, text: string) {
    && Grew(u, w) && n !in u.nodes && w.KindOf(n) == Some(File) && TextNow(w, n) == Some(text)
    && forall cs :: Walk(w, Root, cs) == if cs == p then Some(Under(n)) else Walk(u, Root, cs)
  }

  lemma FileThere(h1: seq<Tree>, h2: seq<Tree>, next: NodeId, u: Tree, p: Path, at: Place, n: NodeId, text: string)
    requires p != [] && u.WellFormed() && Walk(u, Root, Parent(p)) == Some(at)
    requires n !in u.nodes && (at.Under? ==> u.KindOf(at.parent) == Some(Dir))
    requires u.ChildNamed(at, p[|p| - 1]) == None
    requires GoodHistory(h1, next) && Last(h1) == u.Create(n, at, p[|p| - 1], File, Some([]))
    requires h2 != [] && (if text == "" then h2 == h1 else Edited(h1, h2, n, text, |h1| - 1))
    ensures h1 <= h2 && OneMoreFile(u, Last(h2), p, n, text)
  {
    hide Tree.WellFormed, Edited;
    var name, w := p[|p| - 1], Last(h2);
    assert p == Parent(p) + [name];
    if text != "" {
      EditedTip(h1, h2, next, n, text, |h1| - 1);
      assert UpTo(Last(h1).nodes[n].content.value, |h1| - 1);
      EditedExactly(h1, h2, next, n, text, |h1| - 1);
    }
    forall cs ensures Walk(w, Root, cs) == if cs == p then Some(Under(n)) else Walk(u, Root, cs) {
      CreateEffect(u, n, Parent(p), at, name, File, Some([]), cs);
    }
  }

  lemma MintedOver(t: Tree, u: Tree, w: Tree, p: Path, n: NodeId, text: string)
    requires p != [] && MadeDirs(t, u, Parent(p)) && OneMoreFile(u, w, p, n, text) && Walk(u, Root, p) == None
    ensures Minted(t, w, p, text)
  {
    hide Walk;
    assert SameOrNewDir(t, u, Parent(p), p);
    forall cs | cs != p ensures SameOrNewDir(t, w, Parent(p), cs) {
      assert SameOrNewDir(t, u, Parent(p), cs);
    }
  }

  /** Make the doc match what is at `rel` on disk right now. */
  method ApplyPath(ws: Disk, doc: Doc, rel: Path, tracked: Tracked)
    requires Ingestible(doc.history, doc.next, ws.files, ws.dirs, tracked.bases) && ValidPath(rel)
    modifies doc
    ensures doc.Valid()
    ensures Applied(ws.files, ws.dirs, tracked.bases, rel, old(StateOf(doc)), StateOf(doc))
  {
    hide Tree.WellFormed, Stamped, Carries, MadeDirs, Minted, OneMoreFile, Edited, Encode, Decode, Walk, DirsMatch;
    var kind := ws.Kind(rel);
    if kind == Some(IsDir) {
      DirsOnTheWay(doc.history, doc.next, ws.files, ws.dirs, tracked.bases, rel, rel);
      var _ := EnsureDir(doc, rel);
    } else if kind == Some(IsFile) {
      var text := Decode(ws.ReadFile(rel).value);
      if text.Some? {
        TakeFile(ws, doc, rel, text.value, tracked);
      }
    } else {
      var found := NodeAt(doc.Tip(), rel);
      if found.Some? {
        WalkLast(doc.Tip(), Root, rel);
        doc.Delete(found.value);
      }
    }
  }

  /** The file arm of `ApplyPath`. */
  method TakeFile(ws: Disk, doc: Doc, rel: Path, text: string, tracked: Tracked)
    requires Ingestible(doc.history, doc.next, ws.files, ws.dirs, tracked.bases) && ValidPath(rel)
    requires rel in ws.files && Decode(ws.files[rel]) == Some(text)
    modifies doc
    ensures doc.Valid() && old(doc.history) <= doc.history && old(doc.next) <= doc.next
    ensures TookFile(tracked.bases, rel, text, old(StateOf(doc)), StateOf(doc))
  {
    hide Tree.WellFormed, Stamped, Carries, MadeDirs, Minted, OneMoreFile, Edited, Encode, Decode, Walk, DirsMatch;
    ghost var h, t := doc.history, doc.Tip();
    DirsOnTheWay(h, doc.next, ws.files, ws.dirs, tracked.bases, rel, Parent(rel));
    var parent := EnsureDir(doc, Parent(rel));
    var name := rel[|rel| - 1];
    var existing := doc.Tip().ChildNamed(parent, name);
    ExistingIsNodeAt(t, doc.Tip(), rel, parent);
    if existing.None? {
      if rel in tracked.bases {
        PastStays(h, doc.history, tracked.bases[rel].node, tracked.bases[rel].frontier);
      }
      if TrackedEcho(doc.history, tracked.bases, rel, Encode(text)) {
        return;
      }
      ghost var u := doc.Tip();
      NotThereBefore(doc.history, doc.next, tracked.bases, rel, doc.next);
      var n := doc.CreateNode(parent, name, File);
      ghost var h1, next := doc.history, doc.next;
      if rel in tracked.bases {
        PastStays(h1[..|h1| - 1], h1, n, tracked.bases[rel].frontier);
      }
      MergeText(doc, rel, n, text, tracked);
      FileThere(h1, doc.history, next, u, rel, parent, n, text);
      MintedOver(t, u, doc.Tip(), rel, n, text);
    } else {
      WalkLast(t, Root, rel);
      MergeText(doc, rel, existing.value, text, tracked);
    }
  }

  lemma NotThereBefore(h: seq<Tree>, next: NodeId, bases: map<Path, Base>, p: Path, n: NodeId)
    requires GoodHistory(h, next) && n == next
    ensures p in bases ==> ContentAt(h, n, bases[p].frontier) == None
  {
    if p in bases && bases[p].frontier < |h| {
      assert Stamped(h[bases[p].frontier], bases[p].frontier, next);
    }
  }

  /** Three-way merge the file's text in, or fall back to a two-way diff. */
  method MergeText(doc: Doc, rel: Path, n: NodeId, text: string, tracked: Tracked)
    requires doc.Valid() && n in doc.Tip().nodes
    modifies doc`history
    ensures doc.Valid() && old(doc.history) <= doc.history
    ensures if TextNow(old(doc.Tip()), n).None? || TextNow(old(doc.Tip()), n) == Some(text)
            then doc.history == old(doc.history)
            else Edited(old(doc.history), doc.history, n, text, DiffBase(old(doc.history), tracked.bases, rel, n))
  {
    hide Tree.WellFormed, Stamped, Carries, Edited;
    if TextNow(doc.Tip(), n) == Some(text) {
      return;
    }
    var merged := false;
    if rel in tracked.bases {
      if TextNow(doc.Tip(), n).None? {
        NoTextNoPast(doc.history, doc.next, n, tracked.bases[rel].frontier);
      }
      merged := doc.SetContentAt(n, text, tracked.bases[rel].frontier);
    }
    if !merged {
      var _ := doc.SetContent(n, text);
    }
  }

  /** A node that is no file now never was one. */
  lemma NoTextNoPast(h: seq<Tree>, next: NodeId, n: NodeId, f: Frontier)
    requires GoodHistory(h, next) && TextNow(Last(h), n).None?
    ensures ContentAt(h, n, f) == None
  {
    if ContentAt(h, n, f).Some? {
      PastInTip(h, next, n, f);
    }
  }

  /** The lookup after making directories finds what was there before. */
  lemma ExistingIsNodeAt(t: Tree, u: Tree, p: Path, at: Place)
    requires p != [] && MadeDirs(t, u, Parent(p)) && Walk(u, Root, Parent(p)) == Some(at)
    ensures NodeAt(t, p) == u.ChildNamed(at, p[|p| - 1])
    ensures Walk(t, Root, p).Some? ==> Walk(t, Root, Parent(p)).Some?
    ensures u.ChildNamed(at, p[|p| - 1]) == None ==> Walk(u, Root, p) == None
  {
    var name := p[|p| - 1];
    assert p == Parent(p) + [name];
    WalkConcat(u, Root, Parent(p), [name]);
    WalkConcat(t, Root, Parent(p), [name]);
    assert SameOrNewDir(t, u, Parent(p), p);
  }
}
