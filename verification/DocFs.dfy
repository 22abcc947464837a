/** The path-addressed view over a doc's file tree. */
module DocFs {
  import opened Wrappers
  import opened Paths
  import opened SharedText
  import opened FileTree
  import opened TreeEdits
  import opened Docs

  datatype Entry = Entry(node: NodeId, name: string, kind: Option<Kind>)

  function EntryOf(t: Tree, n: NodeId): Entry {
    Entry(n, match t.NameOf(n) case Some(s) => s case None => "", t.KindOf(n))
  }

  // ---- resolving paths ----

  /** Resolve `cs` from `p`; the top itself is not a node. */
  function ResolveFrom(t: Tree, p: Place, cs: seq<string>): Result<NodeId, FsError>
    decreases |cs|
  {
    if cs == [] then (if p.Under? then Ok(p.parent) else Err(NotFound))
    else if p.Under? && t.KindOf(p.parent) != Some(Dir) then Err(NotADirectory)
    else match t.ChildNamed(p, cs[0])
         case None => Err(NotFound)
         case Some(n) => ResolveFrom(t, Under(n), cs[1..])
  }

  function Resolve(t: Tree, path: string): Result<NodeId, FsError> {
    match Components(path) case Err(e) => Err(e) case Ok(cs) => ResolveFrom(t, Root, cs)
  }

  /** All but the last component, which must lead to a directory. */
  function SplitParentFrom(t: Tree, p: Place, cs: seq<string>): Result<(Place, string), FsError>
    decreases |cs|
  {
    if cs == [] then Err(InvalidPath)
    else if |cs| == 1 then Ok((p, cs[0]))
    else match t.ChildNamed(p, cs[0])
         case None => Err(NotFound)
         case Some(n) => if t.KindOf(n) != Some(Dir) then Err(NotADirectory) else SplitParentFrom(t, Under(n), cs[1..])
  }

  function SplitParent(t: Tree, path: string): Result<(Place, string), FsError> {
    match Components(path) case Err(e) => Err(e) case Ok(cs) => SplitParentFrom(t, Root, cs)
  }

  /** `n` can be reached from the top through valid names, along `cs`. */
  ghost predicate Reachable(t: Tree, cs: seq<string>, n: NodeId) {
    cs != [] && AllValid(cs) && Walk(t, Root, cs) == Some(Under(n))
  }

  /**
   On a well-formed tree a path resolves to the one node its names lead to. It
   fails as not a directory exactly when it tries to go on below something
   that is there and is no directory.
   */
  lemma {:induction false} ResolveIsWalk(t: Tree, p: Place, cs: seq<string>)
    requires t.WellFormed() && p != Trash
    ensures forall n: NodeId :: ResolveFrom(t, p, cs) == Ok(n) <==> Walk(t, p, cs) == Some(Under(n))
    ensures ResolveFrom(t, p, cs) == Err(NotADirectory) <==>
            exists k, n :: 0 <= k < |cs| && Walk(t, p, cs[..k]) == Some(Under(n)) && t.KindOf(n) != Some(Dir)
    ensures ResolveFrom(t, p, cs).Err? ==> ResolveFrom(t, p, cs).error in {NotADirectory, NotFound}
    decreases |cs|
  {
    if cs != [] {
      assert Walk(t, p, cs[..0]) == Some(p);
      if p.Under? {
        ParentIsDir(t, p.parent, cs[0]);
      }
      var found := t.ChildNamed(p, cs[0]);
      forall k | 1 <= k < |cs| && found.Some?
        ensures Walk(t, p, cs[..k]) == Walk(t, Under(found.value), cs[1..][..k - 1])
      {
        assert cs[..k][1..] == cs[1..][..k - 1];
      }
      if found.Some? {
        ResolveIsWalk(t, Under(found.value), cs[1..]);
        if k, n :|
          0 <= k < |cs[1..]| && Walk(t, Under(found.value), cs[1..][..k]) == Some(Under(n)) && t.KindOf(n) != Some(Dir)
        {
          assert Walk(t, p, cs[..k + 1]) == Some(Under(n));
        }
      }
    }
  }

  lemma {:induction false} SplitParentIsWalk(t: Tree, p: Place, cs: seq<string>)
    requires t.WellFormed() && p != Trash && SplitParentFrom(t, p, cs).Ok?
    ensures cs != []
    ensures var (q, name) := SplitParentFrom(t, p, cs).value;
      && Walk(t, p, cs[..|cs| - 1]) == Some(q) && name == cs[|cs| - 1] && q != Trash
      && (q == p || (q.Under? && t.KindOf(q.parent) == Some(Dir)))
    decreases |cs|
  {
    if |cs| > 1 {
      SplitParentIsWalk(t, Under(t.ChildNamed(p, cs[0]).value), cs[1..]);
      assert cs[..|cs| - 1][1..] == cs[1..][..|cs[1..]| - 1];
    }
  }

  /**
   The parent of a path is found exactly when the names before the last lead to
   the top or to a directory. There is none of the empty path; it is no directory
   exactly when the way there goes on below something that is none.
   */
  lemma {:induction false} SplitParentIsExact(t: Tree, p: Place, cs: seq<string>)
    requires t.WellFormed() && p != Trash && (p.Under? ==> t.KindOf(p.parent) == Some(Dir))
    ensures SplitParentFrom(t, p, cs).Ok? <==>
            cs != [] && Walk(t, p, cs[..|cs| - 1]).Some? && !Blocked(t, p, cs)
    ensures SplitParentFrom(t, p, cs) == Err(InvalidPath) <==> cs == []
    ensures SplitParentFrom(t, p, cs) == Err(NotADirectory) <==> cs != [] && Blocked(t, p, cs)
    ensures SplitParentFrom(t, p, cs) == Err(NotFound) <==>
            cs != [] && Walk(t, p, cs[..|cs| - 1]) == None && !Blocked(t, p, cs)
    decreases |cs|
  {
    if cs != [] {
      BlockedStep(t, p, cs);
      if |cs| > 1 {
        SlotHolds(t, p, cs[0]);
        assert cs[..|cs| - 1][1..] == cs[1..][..|cs[1..]| - 1];
        var found := t.ChildNamed(p, cs[0]);
        if found.Some? && t.KindOf(found.value) == Some(Dir) {
          SplitParentIsExact(t, Under(found.value), cs[1..]);
        } else if found.Some? {
          assert cs[1..][..0] == [] && Walk(t, Under(found.value), []) == Some(Under(found.value));
          assert BlockedAt(t, Under(found.value), cs[1..], 0);
        }
      }
    }
  }

  /** The names before position `k` lead to something that is no directory, and the path goes on. */
  ghost predicate BlockedAt(t: Tree, p: Place, cs: seq<string>, k: nat) {
    && k < |cs| && Walk(t, p, cs[..k]).Some? && Walk(t, p, cs[..k]).value.Under?
    && t.KindOf(Walk(t, p, cs[..k]).value.parent) != Some(Dir)
  }

  ghost predicate Blocked(t: Tree, p: Place, cs: seq<string>) {
    exists k: nat :: BlockedAt(t, p, cs, k)
  }

  lemma BlockedStep(t: Tree, p: Place, cs: seq<string>)
    requires cs != [] && (p.Under? ==> t.KindOf(p.parent) == Some(Dir))
    ensures Blocked(t, p, cs) <==>
            t.ChildNamed(p, cs[0]).Some? && Blocked(t, Under(t.ChildNamed(p, cs[0]).value), cs[1..])
  {
    var found := t.ChildNamed(p, cs[0]);
    forall k: nat | 1 <= k < |cs| && found.Some?
      ensures BlockedAt(t, p, cs, k) <==> BlockedAt(t, Under(found.value), cs[1..], k - 1)
    {
      assert cs[..k][1..] == cs[1..][..k - 1];
    }
    if k: nat :| BlockedAt(t, p, cs, k) {
      assert cs[..0] == [] && k != 0;
      assert cs[..k][0] == cs[0];
      assert BlockedAt(t, Under(found.value), cs[1..], k - 1);
    }
    if found.Some? {
      if k: nat :| BlockedAt(t, Under(found.value), cs[1..], k) {
        assert cs[..k + 1][1..] == cs[1..][..k] && cs[..k + 1][0] == cs[0];
        assert BlockedAt(t, p, cs, k + 1);
      }
    }
  }

  /** A path that resolves to a node is canonical for it or spells it otherwise. */
  lemma ResolvedReachable(t: Tree, path: string, n: NodeId)
    requires t.WellFormed() && Resolve(t, path) == Ok(n)
    ensures Components(path).Ok? && Reachable(t, Components(path).value, n)
    ensures n in t.nodes && t.PlaceOf(n) != Trash
  {
    var cs := Components(path).value;
    ResolveIsWalk(t, Root, cs);
    WalkLast(t, Root, cs);
  }

  // ---- renaming ----

  datatype Plan = Plan(node: NodeId, place: Place, name: string, gone: Option<NodeId>)

  /** Why a rename refuses before it moves anything, or what it is about to do. */
  function RenameChecks(t: Tree, from: string, to: string): Result<Plan, FsError> {
    match Resolve(t, from)
    case Err(e) => Err(e)
    case Ok(node) =>
      match SplitParent(t, to)
      case Err(e) => Err(e)
      case Ok((p, name)) =>
        var found := t.ChildNamed(p, name);
        var gone := if found == Some(node) then None else found;
        if gone.Some? && t.KindOf(gone.value) == Some(Dir) && t.KindOf(node) != Some(Dir) then Err(NotADirectory)
        else if gone.Some? && t.KindOf(gone.value) == Some(Dir) && t.Children(Under(gone.value)) != []
        then Err(NotEmpty)
        else if gone.Some? && t.KindOf(gone.value) != Some(Dir) && t.KindOf(node) == Some(Dir) then Err(NotAFile)
        else Ok(Plan(node, p, name, gone))
  }

  /** What a rename will do, or why it refuses. */
  ghost function RenamePlan(t: Tree, from: string, to: string): Result<Plan, FsError> {
    match RenameChecks(t, from, to)
    case Err(e) => Err(e)
    case Ok(plan) => if Beneath(t, plan.node, plan.place) then Err(InvalidMove) else Ok(plan)
  }

  /** The node displaced, if any, has nothing beneath it, so the move loses only that node. */
  lemma PlanCanReplace(t: Tree, from: string, to: string)
    requires t.WellFormed() && RenamePlan(t, from, to).Ok?
    ensures var plan := RenamePlan(t, from, to).value; CanReplace(t, plan.node, plan.place, plan.name, plan.gone)
    ensures Components(from).Ok? && Components(to).Ok? && Components(to).value != []
    ensures var plan := RenamePlan(t, from, to).value;
      && Reachable(t, Components(from).value, plan.node)
      && Walk(t, Root, Components(to).value[..|Components(to).value| - 1]) == Some(plan.place)
      && plan.name == Components(to).value[|Components(to).value| - 1]
  {
    var plan := RenamePlan(t, from, to).value;
    ResolvedReachable(t, from, plan.node);
    SplitParentIsWalk(t, Root, Components(to).value);
    SlotHolds(t, plan.place, plan.name);
    if plan.gone.Some? {
      var g := plan.gone.value;
      HangingHolds(t, t.order, Under(g));
      forall x | x in t.nodes ensures t.nodes[x].place != Under(g) {
        assert t.UnderDir(x);
        assert x in t.Children(Under(g)) <==> t.nodes[x].place == Under(g);
      }
    }
  }

  /**
   A rename that succeeds keeps the tree well formed and rewrites paths
   exactly: `to` and all below it is what `from` and all below it was, nothing
   is left at `from`, and every other path is as before.
   */
  lemma RenameIsExact(t: Tree, from: string, to: string, cs: seq<string>)
    requires t.WellFormed() && RenamePlan(t, from, to).Ok?
    ensures var plan := RenamePlan(t, from, to).value;
      var f, g := Components(from).value, Components(to).value;
      && plan.node in t.nodes && (plan.gone.Some? ==> plan.gone.value in t.nodes)
      && var u := Replaced(t, plan.node, plan.place, plan.name, plan.gone);
      && u.WellFormed()
      && Walk(u, Root, cs) == (if g <= cs then Walk(t, Root, f + cs[|g|..])
                               else if f <= cs then None
                               else Walk(t, Root, cs))
      && (forall n | n in t.nodes && plan.gone != Some(n) && n != plan.node :: u.nodes[n] == t.nodes[n])
  {
    PlanCanReplace(t, from, to);
    var plan := RenamePlan(t, from, to).value;
    ReplaceEffect(t, plan.node, plan.place, plan.name, plan.gone,
                  Components(from).value, Components(to).value, cs);
    forall n | n in t.nodes && plan.gone != Some(n) && n != plan.node
      ensures Replaced(t, plan.node, plan.place, plan.name, plan.gone).nodes[n] == t.nodes[n]
    {
      ReplacedNode(t, plan.node, plan.place, plan.name, plan.gone, n);
    }
  }

  /** Nothing but the displaced node disappears: every other reachable node still is. */
  lemma RenameLosesNothing(t: Tree, from: string, to: string, cs: seq<string>, n: NodeId)
    requires t.WellFormed() && RenamePlan(t, from, to).Ok? && Walk(t, Root, cs) == Some(Under(n))
    requires RenamePlan(t, from, to).value.gone != Some(n)
    ensures var plan := RenamePlan(t, from, to).value;
      var f, g := Components(from).value, Components(to).value;
      && plan.node in t.nodes && (plan.gone.Some? ==> plan.gone.value in t.nodes)
      && Walk(Replaced(t, plan.node, plan.place, plan.name, plan.gone), Root,
              if f <= cs then g + cs[|f|..] else cs) == Some(Under(n))
  {
    hide RenameChecks, Replaced, Walk, Beneath;
    PlanCanReplace(t, from, to);
    var plan := RenamePlan(t, from, to).value;
    var f, g := Components(from).value, Components(to).value;
    if f <= cs {
      var moved := g + cs[|f|..];
      RenameIsExact(t, from, to, moved);
      assert f + moved[|g|..] == cs;
    } else {
      RenameIsExact(t, from, to, cs);
      if g <= cs {
        NothingBelowDisplaced(t, from, to, cs);
      }
    }
  }

  /** A path through `to` but not `from` leads, before the move, to the displaced node itself. */
  lemma NothingBelowDisplaced(t: Tree, from: string, to: string, cs: seq<string>)
    requires t.WellFormed() && RenamePlan(t, from, to).Ok?
    requires var f, g := Components(from).value, Components(to).value; g <= cs && !(f <= cs)
    requires Walk(t, Root, cs).Some?
    ensures RenamePlan(t, from, to).value.gone.Some?
    ensures Walk(t, Root, cs) == Some(Under(RenamePlan(t, from, to).value.gone.value))
  {
    var plan := RenamePlan(t, from, to).value;
    var f, g := Components(from).value, Components(to).value;
    PlanCanReplace(t, from, to);
    var up, rest := g[..|g| - 1], cs[|g|..];
    assert g == up + [plan.name] && cs == up + ([plan.name] + rest);
    WalkConcat(t, Root, up, [plan.name] + rest);
    WalkConcat(t, Root, up, [plan.name]);
    assert ([plan.name] + rest)[1..] == rest;
    if t.ChildNamed(plan.place, plan.name) == Some(plan.node) {
      PathUnique(t, f, g);
    }
    var gone := plan.gone.value;
    if rest != [] {
      SlotHolds(t, Under(gone), rest[0]);
    }
  }

  // ---- when a rename succeeds, and how it fails ----

  lemma NothingAboveTop(t: Tree, n: NodeId)
    ensures !Beneath(t, n, Root)
  {
  }

  /** Seen from the paths that lead there, `p` lies in `n` or below it exactly when its path begins with that of `n`. */
  lemma {:induction false} BeneathIsPrefix(t: Tree, n: NodeId, p: Place, from: seq<string>, up: seq<string>)
    requires t.WellFormed() && Walk(t, Root, from) == Some(Under(n)) && Walk(t, Root, up) == Some(p)
    ensures Beneath(t, n, p) <==> from <= up
    decreases |up|
  {
    if !Beneath(t, n, p) {
      TargetIsOutside(t, n, p, from, up);
    } else {
      NothingAboveTop(t, n);
      WalkLast(t, Root, up);
      BeneathStep(t, n, p.parent);
      if n == p.parent {
        PathUnique(t, from, up);
      } else {
        BeneathIsPrefix(t, n, t.PlaceOf(p.parent), from, up[..|up| - 1]);
      }
    }
    if from <= up {
      assert up == from + up[|from|..];
      WalkConcat(t, Root, from, up[|from|..]);
      assert Climb(t, Under(n), 0) == Under(n);
      WalkBeneath(t, n, Under(n), up[|from|..]);
    }
  }

  ghost predicate Empty(t: Tree, n: NodeId) {
    forall x | x in t.nodes :: t.nodes[x].place != Under(n)
  }

  lemma EmptyIsChildless(t: Tree, n: NodeId)
    requires t.WellFormed()
    ensures Empty(t, n) <==> t.Children(Under(n)) == []
  {
    HangingHolds(t, t.order, Under(n));
    if !Empty(t, n) {
      var x :| x in t.nodes && t.nodes[x].place == Under(n);
      assert x in t.Children(Under(n));
    }
    if t.Children(Under(n)) != [] {
      assert t.Children(Under(n))[0] in t.Children(Under(n));
    }
  }

  /** `path` spells a way to a node. */
  ghost predicate LeadsTo(t: Tree, path: string, n: NodeId) {
    Components(path).Ok? && Walk(t, Root, Components(path).value) == Some(Under(n))
  }

  /** `path` names a slot at the top or in a directory. */
  ghost predicate HasSlot(t: Tree, path: string) {
    && Components(path).Ok? && Components(path).value != []
    && var cs := Components(path).value;
    && Walk(t, Root, cs[..|cs| - 1]).Some? && !Blocked(t, Root, cs)
  }

  /** Another node than `n` is in the way at `path`. */
  ghost predicate Displaces(t: Tree, path: string, n: NodeId, d: NodeId) {
    LeadsTo(t, path, d) && d != n
  }

  /** `n` may take the place of `d`: a non-directory that of a non-directory, a directory that of an empty one. */
  ghost predicate MayReplace(t: Tree, n: NodeId, d: NodeId) {
    && (t.KindOf(d) == Some(Dir) <==> t.KindOf(n) == Some(Dir))
    && (t.KindOf(d) == Some(Dir) ==> Empty(t, d))
  }

  /** All that a rename asks for. */
  ghost predicate MayRename(t: Tree, from: string, to: string) {
    exists n :: MayMove(t, from, to, n)
  }

  ghost predicate MayMove(t: Tree, from: string, to: string, n: NodeId) {
    && LeadsTo(t, from, n) && HasSlot(t, to)
    && (forall d | Displaces(t, to, n, d) :: MayReplace(t, n, d))
    && !(Components(from).value < Components(to).value)
  }

  /** When a rename refuses with `e`, checks in the source's order. */
  ghost predicate Refuses(t: Tree, from: string, to: string, e: FsError) {
    match e
    case InvalidPath =>
      || Components(from).Err?
      || (exists n :: LeadsTo(t, from, n) && (Components(to).Err? || Components(to).value == []))
    case NotFound =>
      || (Components(from).Ok? && !Blocked(t, Root, Components(from).value) && forall n :: !LeadsTo(t, from, n))
      || (exists n :: LeadsTo(t, from, n) && NoParent(t, to))
    case NotADirectory =>
      || (Components(from).Ok? && Blocked(t, Root, Components(from).value))
      || (exists n :: LeadsTo(t, from, n) && Components(to).Ok? && Blocked(t, Root, Components(to).value))
      || (exists n, d :: LeadsTo(t, from, n) && HasSlot(t, to) && Displaces(t, to, n, d)
            && t.KindOf(d) == Some(Dir) && t.KindOf(n) != Some(Dir))
    case NotEmpty =>
      exists n, d :: LeadsTo(t, from, n) && HasSlot(t, to) && Displaces(t, to, n, d)
        && t.KindOf(d) == Some(Dir) && t.KindOf(n) == Some(Dir) && !Empty(t, d)
    case NotAFile =>
      exists n, d :: LeadsTo(t, from, n) && HasSlot(t, to) && Displaces(t, to, n, d)
        && t.KindOf(d) != Some(Dir) && t.KindOf(n) == Some(Dir)
    case InvalidMove =>
      exists n :: LeadsTo(t, from, n) && HasSlot(t, to)
        && (forall d | Displaces(t, to, n, d) :: MayReplace(t, n, d)) && Components(from).value < Components(to).value
    case AlreadyExists => false
  }

  ghost predicate NoParent(t: Tree, path: string) {
    && Components(path).Ok? && Components(path).value != []
    && var cs := Components(path).value;
    && Walk(t, Root, cs[..|cs| - 1]) == None && !Blocked(t, Root, cs)
  }

  lemma LeadsToOne(t: Tree, from: string)
    requires t.WellFormed()
    ensures forall m: NodeId :: LeadsTo(t, from, m) <==> Resolve(t, from) == Ok(m)
    ensures Resolve(t, from) == Err(InvalidPath) <==> Components(from).Err?
    ensures Resolve(t, from) == Err(NotADirectory) <==> Components(from).Ok? && Blocked(t, Root, Components(from).value)
    ensures Resolve(t, from).Err? ==> Resolve(t, from).error in {InvalidPath, NotADirectory, NotFound}
  {
    if Components(from).Ok? {
      var cs := Components(from).value;
      ResolveIsWalk(t, Root, cs);
      if Blocked(t, Root, cs) {
        var k: nat :| BlockedAt(t, Root, cs, k);
        assert Walk(t, Root, cs[..k]) == Some(Under(Walk(t, Root, cs[..k]).value.parent));
      }
      if k, n :| 0 <= k < |cs| && Walk(t, Root, cs[..k]) == Some(Under(n)) && t.KindOf(n) != Some(Dir) {
        assert BlockedAt(t, Root, cs, k);
      }
    }
  }

  lemma SlotIsOne(t: Tree, to: string)
    requires t.WellFormed()
    ensures SplitParent(t, to).Ok? <==> HasSlot(t, to)
    ensures SplitParent(t, to).Ok? ==>
      var cs, slot := Components(to).value, SplitParent(t, to).value;
      slot.0 != Trash && Walk(t, Root, cs[..|cs| - 1]) == Some(slot.0) && slot.1 == cs[|cs| - 1]
    ensures SplitParent(t, to).Ok? ==>
      var slot := SplitParent(t, to).value;
      forall d: NodeId :: LeadsTo(t, to, d) <==> t.ChildNamed(slot.0, slot.1) == Some(d)
    ensures SplitParent(t, to) == Err(InvalidPath) <==> Components(to).Err? || Components(to).value == []
    ensures SplitParent(t, to) == Err(NotADirectory) <==> Components(to).Ok? && Blocked(t, Root, Components(to).value)
    ensures SplitParent(t, to) == Err(NotFound) <==> NoParent(t, to)
    ensures SplitParent(t, to).Err? ==> SplitParent(t, to).error in {InvalidPath, NotADirectory, NotFound}
  {
    if Components(to).Ok? {
      var cs := Components(to).value;
      SplitParentIsExact(t, Root, cs);
      if SplitParent(t, to).Ok? {
        SplitParentIsWalk(t, Root, cs);
        var (p, name) := SplitParent(t, to).value;
        assert cs == cs[..|cs| - 1] + [name];
        WalkConcat(t, Root, cs[..|cs| - 1], [name]);
        WalkStep(t, p, name, []);
        assert [name] + [] == [name];
      }
    }
  }

  /**
   A rename succeeds if and only if the source path leads to a node, the target
   names a slot at the top or in a directory that does not lie inside the node,
   and the slot is free, holds the node itself, or holds one it may replace.
   */
  lemma RenameSucceedsIf(t: Tree, from: string, to: string)
    requires t.WellFormed()
    ensures RenamePlan(t, from, to).Ok? <==> MayRename(t, from, to)
  {
    hide Walk, Blocked, Beneath, Tree.WellFormed, Resolve, SplitParent;
    LeadsToOne(t, from);
    SlotIsOne(t, to);
    if Resolve(t, from).Ok? && SplitParent(t, to).Ok? {
      var n := Resolve(t, from).value;
      RenameOfNode(t, from, to, n);
      assert MayRename(t, from, to) <==> MayMove(t, from, to, n);
    }
  }

  /** What the slot of the target holds decides. */
  lemma RenameOfNode(t: Tree, from: string, to: string, n: NodeId)
    requires t.WellFormed() && Resolve(t, from) == Ok(n) && SplitParent(t, to).Ok?
    ensures LeadsTo(t, from, n) && HasSlot(t, to)
    ensures (forall d | Displaces(t, to, n, d) :: MayReplace(t, n, d)) <==> RenameChecks(t, from, to).Ok?
    ensures RenameChecks(t, from, to).Ok? ==>
      (RenamePlan(t, from, to).Ok? <==> !(Components(from).value < Components(to).value))
      && (RenamePlan(t, from, to).Err? ==> RenamePlan(t, from, to).error == InvalidMove)
    ensures forall d | Displaces(t, to, n, d) :: RenameChecks(t, from, to).Err? ==>
      RenameChecks(t, from, to).error ==
        if t.KindOf(d) == Some(Dir) then (if t.KindOf(n) == Some(Dir) then NotEmpty else NotADirectory) else NotAFile
    ensures forall d, e | Displaces(t, to, n, d) && Displaces(t, to, n, e) :: d == e
    ensures RenameChecks(t, from, to).Err? ==> exists d :: Displaces(t, to, n, d)
  {
    hide Walk, Blocked, Beneath, Tree.WellFormed, Resolve, SplitParent;
    LeadsToOne(t, from);
    SlotIsOne(t, to);
    var (p, name) := SplitParent(t, to).value;
    var found := t.ChildNamed(p, name);
    if found.Some? && found != Some(n) {
      EmptyIsChildless(t, found.value);
      assert Displaces(t, to, n, found.value);
      assert MayReplace(t, n, found.value) <==> RenameChecks(t, from, to).Ok?;
    } else {
      assert forall d: NodeId :: !Displaces(t, to, n, d);
    }
    var g := Components(to).value;
    var f, up := Components(from).value, g[..|g| - 1];
    BeneathIsPrefix(t, n, p, f, up);
    assert g == up + [g[|g| - 1]];
    assert f <= up <==> f < g;
  }

  lemma SourceRefuses(t: Tree, from: string, to: string, e: FsError)
    requires t.WellFormed() && Resolve(t, from).Err?
    ensures RenamePlan(t, from, to) == Err(e) <==> Refuses(t, from, to, e)
  {
    hide Walk, Blocked, Beneath, Tree.WellFormed, Resolve, SplitParent, MayReplace;
    LeadsToOne(t, from);
  }

  lemma TargetRefuses(t: Tree, from: string, to: string, e: FsError)
    requires t.WellFormed() && Resolve(t, from).Ok? && SplitParent(t, to).Err?
    ensures RenamePlan(t, from, to) == Err(e) <==> Refuses(t, from, to, e)
  {
    hide Walk, Blocked, Beneath, Tree.WellFormed, Resolve, SplitParent, MayReplace;
    LeadsToOne(t, from);
    SlotIsOne(t, to);
    assert LeadsTo(t, from, Resolve(t, from).value);
  }

  lemma SlotRefuses(t: Tree, from: string, to: string, e: FsError)
    requires t.WellFormed() && Resolve(t, from).Ok? && SplitParent(t, to).Ok?
    ensures RenamePlan(t, from, to) == Err(e) <==> Refuses(t, from, to, e)
  {
    hide Walk, Blocked, Beneath, Tree.WellFormed, Resolve, SplitParent, Empty, Displaces;
    var n := Resolve(t, from).value;
    LeadsToOne(t, from);
    SlotIsOne(t, to);
    RenameOfNode(t, from, to, n);
    if RenameChecks(t, from, to).Err? {
      var d :| Displaces(t, to, n, d);
      assert !MayReplace(t, n, d);
      assert Refuses(t, from, to, RenameChecks(t, from, to).error);
    }
  }

  /** A rename fails with an error if and only if what that error says is the first thing wrong. */
  lemma RenameFailsIf(t: Tree, from: string, to: string, e: FsError)
    requires t.WellFormed()
    ensures RenamePlan(t, from, to) == Err(e) <==> Refuses(t, from, to, e)
  {
    if Resolve(t, from).Err? {
      SourceRefuses(t, from, to, e);
    } else if SplitParent(t, to).Err? {
      TargetRefuses(t, from, to, e);
    } else {
      SlotRefuses(t, from, to, e);
    }
  }

  // ---- the view's operations ----

  method ResolvePath(doc: Doc, path: string) returns (r: Result<NodeId, FsError>)
    requires doc.history != []
    ensures r == Resolve(doc.Tip(), path)
  {
    var t := doc.Tip();
    var comps := Components(path);
    if comps.Err? {
      return Err(comps.error);
    }
    var current := Root;
    for i := 0 to |comps.value|
      invariant current != Trash
      invariant ResolveFrom(t, Root, comps.value) == ResolveFrom(t, current, comps.value[i..])
    {
      if current.Under? && t.KindOf(current.parent) != Some(Dir) {
        return Err(NotADirectory);
      }
      var child := t.ChildNamed(current, comps.value[i]);
      if child.None? {
        return Err(NotFound);
      }
      assert comps.value[i..][1..] == comps.value[i + 1..];
      current := Under(child.value);
    }
    r := if current.Under? then Ok(current.parent) else Err(NotFound);
  }

  method SplitParentPath(doc: Doc, path: string) returns (r: Result<(Place, string), FsError>)
    requires doc.history != []
    ensures r == SplitParent(doc.Tip(), path)
  {
    var t := doc.Tip();
    var comps := Components(path);
    if comps.Err? {
      return Err(comps.error);
    }
    if comps.value == [] {
      return Err(InvalidPath);
    }
    var last := |comps.value| - 1;
    var parent := Root;
    for i := 0 to last
      invariant SplitParentFrom(t, Root, comps.value) == SplitParentFrom(t, parent, comps.value[i..])
    {
      var child := t.ChildNamed(parent, comps.value[i]);
      if child.None? {
        return Err(NotFound);
      }
      if t.KindOf(child.value) != Some(Dir) {
        return Err(NotADirectory);
      }
      assert comps.value[i..][1..] == comps.value[i + 1..];
      parent := Under(child.value);
    }
    r := Ok((parent, comps.value[last]));
  }

  predicate ContentIs(t: Tree, n: NodeId, text: Text) {
    n in t.nodes && t.nodes[n].content == Some(text)
  }

  /** Create a file or directory at a free path under an existing directory. */
  method CreateAt(doc: Doc, path: string, kind: Kind) returns (r: Result<NodeId, FsError>)
    requires doc.Valid()
    modifies doc
    ensures doc.Valid()
    ensures r.Err? ==> doc.history == old(doc.history) && doc.next == old(doc.next)
    ensures match SplitParent(old(doc.Tip()), path)
            case Err(e) => r == Err(e)
            case Ok((p, name)) =>
              r == if old(doc.Tip()).ChildNamed(p, name).Some? then Err(AlreadyExists) else Ok(old(doc.next))
    ensures r.Ok? ==> Components(path).Ok? && r.value !in old(doc.Tip()).nodes
    ensures r.Ok? ==> doc.Tip().KindOf(r.value) == Some(kind) && (kind == File ==> ContentIs(doc.Tip(), r.value, []))
    ensures r.Ok? ==> forall n | n in old(doc.Tip()).nodes ::
      n in doc.Tip().nodes && doc.Tip().nodes[n] == old(doc.Tip()).nodes[n]
    ensures r.Ok? ==> forall cs ::
      Walk(doc.Tip(), Root, cs) ==
        if cs == Components(path).value then Some(Under(r.value)) else Walk(old(doc.Tip()), Root, cs)
  {
    ghost var t := doc.Tip();
    var split := SplitParentPath(doc, path);
    if split.Err? {
      return Err(split.error);
    }
    var (p, name) := split.value;
    if doc.Tip().ChildNamed(p, name).Some? {
      return Err(AlreadyExists);
    }
    ghost var cs := Components(path).value;
    SplitParentIsWalk(t, Root, cs);
    var n := doc.CreateNode(p, name, kind);
    r := Ok(n);
    ghost var up := cs[..|cs| - 1];
    assert up + [name] == cs;
    forall x ensures Walk(doc.Tip(), Root, x) == if x == cs then Some(Under(n)) else Walk(t, Root, x) {
      CreateEffect(t, n, up, p, name, kind, if kind == File then Some([]) else None, x);
    }
  }

  /** Delete a file, or an empty directory when `dir` is asked for. */
  method RemoveAt(doc: Doc, path: string, dir: bool) returns (r: Result<(), FsError>)
    requires doc.Valid()
    modifies doc`history
    ensures doc.Valid()
    ensures r.Err? ==> doc.history == old(doc.history)
    ensures match Resolve(old(doc.Tip()), path)
            case Err(e) => r == Err(e)
            case Ok(n) =>
              var t := old(doc.Tip());
              r == if dir && t.KindOf(n) != Some(Dir) then Err(NotADirectory)
                   else if !dir && t.KindOf(n) == Some(Dir) then Err(NotAFile)
                   else if dir && t.Children(Under(n)) != [] then Err(NotEmpty)
                   else Ok(())
    ensures r.Ok? ==> Components(path).Ok?
    ensures r.Ok? ==> forall cs ::
      Walk(doc.Tip(), Root, cs) == (if Components(path).value <= cs then None else Walk(old(doc.Tip()), Root, cs))
  {
    ghost var t := doc.Tip();
    var resolved := ResolvePath(doc, path);
    if resolved.Err? {
      return Err(resolved.error);
    }
    var n := resolved.value;
    if dir && doc.Tip().KindOf(n) != Some(Dir) {
      return Err(NotADirectory);
    }
    if !dir && doc.Tip().KindOf(n) == Some(Dir) {
      return Err(NotAFile);
    }
    if dir && doc.Tip().Children(Under(n)) != [] {
      return Err(NotEmpty);
    }
    ResolvedReachable(t, path, n);
    doc.Delete(n);
    r := Ok(());
    forall cs ensures Walk(doc.Tip(), Root, cs) == if Components(path).value <= cs then None else Walk(t, Root, cs) {
      DeleteEffect(t, n, Components(path).value, cs);
    }
  }

  method CheckRename(doc: Doc, from: string, to: string) returns (r: Result<Plan, FsError>)
    requires doc.history != []
    ensures r == RenameChecks(doc.Tip(), from, to)
  {
    var resolved := ResolvePath(doc, from);
    if resolved.Err? {
      return Err(resolved.error);
    }
    var node := resolved.value;
    var split := SplitParentPath(doc, to);
    if split.Err? {
      return Err(split.error);
    }
    var (p, name) := split.value;
    var tree := doc.Tip();
    var found := tree.ChildNamed(p, name);
    var displaced := if found == Some(node) then None else found;
    if displaced.Some? {
      var nodeIsDir := tree.KindOf(node) == Some(Dir);
      var dest := displaced.value;
      if tree.KindOf(dest) == Some(Dir) {
        if !nodeIsDir {
          return Err(NotADirectory);
        }
        if tree.Children(Under(dest)) != [] {
          return Err(NotEmpty);
        }
      } else if nodeIsDir {
        return Err(NotAFile);
      }
    }
    r := Ok(Plan(node, p, name, displaced));
  }

  /** The nodes a rename is about speak of the tree it was checked against. */
  lemma PlanNodes(t: Tree, from: string, to: string)
    requires t.WellFormed() && RenameChecks(t, from, to).Ok?
    ensures var plan := RenameChecks(t, from, to).value;
      && plan.node in t.nodes && plan.place != Trash && (plan.place.Under? ==> plan.place.parent in t.nodes)
      && (plan.gone.Some? ==> plan.gone.value in t.nodes && plan.gone.value != plan.node)
  {
    var plan := RenameChecks(t, from, to).value;
    ResolvedReachable(t, from, plan.node);
    SplitParentIsWalk(t, Root, Components(to).value);
    SlotHolds(t, plan.place, plan.name);
  }

  /** Move or rename a node, replacing a compatible destination. */
  method Rename(doc: Doc, from: string, to: string) returns (r: Result<(), FsError>)
    requires doc.Valid()
    modifies doc`history
    ensures doc.Valid()
    ensures RenamePlan(old(doc.Tip()), from, to).Err? ==>
      r == Err(RenamePlan(old(doc.Tip()), from, to).error) && doc.history == old(doc.history)
    ensures RenamePlan(old(doc.Tip()), from, to).Ok? ==>
      var plan := RenamePlan(old(doc.Tip()), from, to).value;
      && r == Ok(())
      && plan.node in old(doc.Tip()).nodes && (plan.gone.Some? ==> plan.gone.value in old(doc.Tip()).nodes)
      && doc.Tip() == Replaced(old(doc.Tip()), plan.node, plan.place, plan.name, plan.gone)
  {
    hide RenameChecks, Beneath, CanReplace, Replaced, Tree.WellFormed;
    ghost var t := doc.Tip();
    var checked := CheckRename(doc, from, to);
    if checked.Err? {
      return Err(checked.error);
    }
    var plan := checked.value;
    PlanNodes(t, from, to);
    if !Beneath(t, plan.node, plan.place) {
      PlanCanReplace(t, from, to);
    }
    var ok := doc.MoveOver(plan.node, plan.place, plan.name, plan.gone);
    r := if ok then Ok(()) else Err(InvalidMove);
  }
}
