/** What each edit of the tree does to every path, and that it keeps the tree well formed. */
module TreeEdits {
  import opened Wrappers
  import opened SharedText
  import opened FileTree

  // ---- creating a node ----

  lemma CreateRanked(t: Tree, n: NodeId, p: Place, name: string, kind: Kind, content: Option<Text>)
    requires t.WellFormed() && n !in t.nodes && (p.Under? ==> p.parent in t.nodes)
    ensures t.Create(n, p, name, kind, content).Acyclic()
  {
    hide Tree.WellFormed;
    var u := t.Create(n, p, name, kind, content);
    var r := RankOf(t);
    var rank := r[n := if p.Under? then r[p.parent] + 1 else 0];
    forall x ensures u.RankedAt(rank, x) {
      assert t.RankedAt(r, x);
    }
    assert u.Ranked(rank);
  }

  lemma CreateWellFormed(t: Tree, n: NodeId, p: Place, name: string, kind: Kind, content: Option<Text>)
    requires t.WellFormed() && n !in t.nodes && p != Trash
    requires p.Under? ==> t.KindOf(p.parent) == Some(Dir)
    requires t.ChildNamed(p, name) == None
    ensures t.Create(n, p, name, kind, content).WellFormed()
  {
    hide Tree.Acyclic, Tree.Hanging, Tree.FirstNamed;
    var u := t.Create(n, p, name, kind, content);
    CreateRanked(t, n, p, name, kind, content);
    SlotHolds(t, p, name);
    forall x ensures u.UnderDir(x) {
      assert t.UnderDir(x);
    }
    forall x, y ensures u.NoClash(x, y) {
      assert t.NoClash(x, y);
    }
  }

// ---- the order of children ----

  /** The listed children, less one that is taken out. */
  lemma {:induction false} HangingWithout(t: Tree, u: Tree, ids: seq<NodeId>, n: NodeId, q: Place)
    returns (at: seq<nat>)
    requires forall x | x != n :: x in u.nodes <==> x in t.nodes
    requires forall x | x != n && x in t.nodes :: u.nodes[x].place == t.nodes[x].place
    ensures Selects(t.Hanging(ids, q), (x: NodeId) => x != n, u.Hanging(Without(ids, n), q), at)
  {
    at := [];
    if ids != [] {
      at := HangingWithout(t, u, ids[1..], n, q);
      var rest := t.Hanging(ids[1..], q);
      if ids[0] in t.nodes && t.nodes[ids[0]].place == q {
        SelectsCons(ids[0], rest, (x: NodeId) => x != n, u.Hanging(Without(ids[1..], n), q), at);
        assert t.Hanging(ids, q) == [ids[0]] + rest;
        at := if ids[0] != n then [0] + Shift(at) else Shift(at);
      }
      if ids[0] != n {
        assert Without(ids, n) == [ids[0]] + Without(ids[1..], n);
        assert (Without(ids, n))[1..] == Without(ids[1..], n);
      }
    }
  }

  lemma {:induction false} HangingAppend(t: Tree, ids: seq<NodeId>, n: NodeId, q: Place)
    ensures t.Hanging(ids + [n], q) == t.Hanging(ids, q) + if n in t.nodes && t.nodes[n].place == q then [n] else []
  {
    if ids != [] {
      assert (ids + [n])[1..] == ids[1..] + [n];
      HangingAppend(t, ids[1..], n, q);
    } else {
      assert ([n])[1..] == [];
    }
  }

  lemma {:induction false} HangingSame(t: Tree, u: Tree, ids: seq<NodeId>, q: Place)
    requires forall x | x in ids :: x in t.nodes && x in u.nodes && u.nodes[x].place == t.nodes[x].place
    ensures u.Hanging(ids, q) == t.Hanging(ids, q)
  {
    if ids != [] {
      HangingSame(t, u, ids[1..], q);
    }
  }

  /** A node that is moved is listed last under its new parent; all other children keep their order. */
  lemma {:induction false} MovedIsLast(t: Tree, n: NodeId, p: Place, q: Place)
    returns (others: seq<NodeId>, at: seq<nat>)
    requires n in t.nodes
    ensures Selects(t.Children(q), (x: NodeId) => x != n, others, at)
    ensures t.Moved(n, p).Children(q) == others + if q == p then [n] else []
  {
    var u := t.Moved(n, p);
    others := u.Hanging(Without(t.order, n), q);
    at := HangingWithout(t, u, t.order, n, q);
    HangingAppend(u, Without(t.order, n), n, q);
  }

  /** So is one that is created. */
  lemma {:induction false} CreatedIsLast(t: Tree, n: NodeId, p: Place, name: string, kind: Kind,
                                         content: Option<Text>, q: Place)
    requires t.Listed() && n !in t.nodes
    ensures t.Create(n, p, name, kind, content).Children(q) == t.Children(q) + if q == p then [n] else []
  {
    var u := t.Create(n, p, name, kind, content);
    HangingAppend(u, t.order, n, q);
    HangingSame(t, u, t.order, q);
  }

    lemma CreateSlots(t: Tree, n: NodeId, p: Place, name: string, kind: Kind, content: Option<Text>)
    requires t.WellFormed() && n !in t.nodes && p != Trash
    requires p.Under? ==> t.KindOf(p.parent) == Some(Dir)
    requires t.ChildNamed(p, name) == None
    ensures var u := t.Create(n, p, name, kind, content);
      && u.WellFormed()
      && (forall q, m | q != Trash ::
            u.ChildNamed(q, m) == if q == p && m == name then Some(n) else t.ChildNamed(q, m))
  {
    hide Tree.WellFormed;
    var u := t.Create(n, p, name, kind, content);
    CreateWellFormed(t, n, p, name, kind, content);
    SlotHolds(t, p, name);
    forall q, m | q != Trash
      ensures u.ChildNamed(q, m) == if q == p && m == name then Some(n) else t.ChildNamed(q, m)
    {
      SlotHolds(t, q, m);
      SlotHolds(u, q, m);
    }
  }

  /** The new node is reached by its path, and nothing is reached below it. */
  lemma CreatedInside(t: Tree, u: Tree, n: NodeId, at: seq<string>, p: Place, name: string, rest: seq<string>)
    requires t.WellFormed() && n !in t.nodes && Walk(u, Root, at) == Some(p) && Walk(t, Root, at) == Some(p)
    requires u.ChildNamed(p, name) == Some(n) && t.ChildNamed(p, name) == None
    requires rest != [] ==> u.ChildNamed(Under(n), rest[0]) == t.ChildNamed(Under(n), rest[0])
    ensures Walk(u, Root, at + [name] + rest) == if rest == [] then Some(Under(n)) else None
    ensures Walk(t, Root, at + [name] + rest) == None
  {
    hide Tree.WellFormed;
    WalkConcat(u, Root, at, [name]);
    WalkConcat(u, Root, at + [name], rest);
    assert Walk(u, p, [name]) == Walk(u, Under(n), []);
    WalkConcat(t, Root, at, [name]);
    WalkConcat(t, Root, at + [name], rest);
    if rest != [] {
      ParentIsDir(t, n, rest[0]);
    }
  }

  /** A new node appears at its path; every other path is as it was. */
  lemma CreateEffect(t: Tree, n: NodeId, at: seq<string>, p: Place, name: string, kind: Kind,
                        content: Option<Text>, cs: seq<string>)
    requires t.WellFormed() && n !in t.nodes
    requires Walk(t, Root, at) == Some(p) && (p.Under? ==> t.KindOf(p.parent) == Some(Dir))
    requires t.ChildNamed(p, name) == None
    ensures var u := t.Create(n, p, name, kind, content);
      && u.WellFormed()
      && Walk(u, Root, cs) == if cs == at + [name] then Some(Under(n)) else Walk(t, Root, cs)
  {
    hide Tree.WellFormed, Tree.Create, Walk;
    if at != [] {
      WalkNotTrash(t, Root, at);
    } else {
      RootWalk(t);
    }
    CreateSlots(t, n, p, name, kind, content);
    var u := t.Create(n, p, name, kind, content);
    var path := at + [name];
    assert path[..|path| - 1] == at;
    AvoidsSlot(t, cs, path, p);
    AvoidsSlot(t, at, path, p);
    if path <= cs {
      WalkAgrees(t, u, Root, at, p, name, p, name);
      assert cs == path + cs[|path|..];
      CreatedInside(t, u, n, at, p, name, cs[|path|..]);
    } else {
      WalkAgrees(t, u, Root, cs, p, name, p, name);
    }
  }

  lemma RootWalk(t: Tree)
    ensures Walk(t, Root, []) == Some(Root)
  {
  }

  // ---- deleting a node ----

  lemma DeleteWellFormed(t: Tree, n: NodeId)
    requires t.WellFormed() && n in t.nodes
    ensures t.Deleted(n).WellFormed()
  {
    var u := t.Deleted(n);
    var rank :| t.Ranked(rank);
    forall x ensures u.RankedAt(rank, x) && u.UnderDir(x) {
      assert t.RankedAt(rank, x) && t.UnderDir(x);
    }
    assert u.Ranked(rank);
    forall x, y ensures u.NoClash(x, y) {
      assert t.NoClash(x, y);
    }
  }

  lemma DeleteSlots(t: Tree, n: NodeId)
    requires t.WellFormed() && n in t.nodes
    ensures var u := t.Deleted(n);
      && u.WellFormed()
      && (forall q, m | q != Trash ::
            u.ChildNamed(q, m) == if q == t.PlaceOf(n) && t.NameOf(n) == Some(m) then None else t.ChildNamed(q, m))
  {
    hide Tree.WellFormed;
    var u := t.Deleted(n);
    DeleteWellFormed(t, n);
    forall q, m | q != Trash
      ensures u.ChildNamed(q, m) == if q == t.PlaceOf(n) && t.NameOf(n) == Some(m) then None else t.ChildNamed(q, m)
    {
      SlotHolds(t, q, m);
      SlotHolds(u, q, m);
    }
  }

  /** Deleting takes away the node's path and everything below it, and nothing else. */
  lemma DeleteEffect(t: Tree, n: NodeId, at: seq<string>, cs: seq<string>)
    requires t.WellFormed() && at != [] && Walk(t, Root, at) == Some(Under(n))
    ensures n in t.nodes && t.Deleted(n).WellFormed()
    ensures Walk(t.Deleted(n), Root, cs) == if at <= cs then None else Walk(t, Root, cs)
  {
    hide Tree.WellFormed, Tree.Deleted;
    WalkLast(t, Root, at);
    DeleteSlots(t, n);
    var u, p, name := t.Deleted(n), t.PlaceOf(n), at[|at| - 1];
    var up := at[..|at| - 1];
    AvoidsSlot(t, cs, at, p);
    AvoidsSlot(t, up, at, p);
    if at <= cs {
      WalkAgrees(t, u, Root, up, p, name, p, name);
      assert cs == up + ([name] + cs[|at|..]);
      WalkConcat(u, Root, up, [name] + cs[|at|..]);
    } else {
      WalkAgrees(t, u, Root, cs, p, name, p, name);
    }
  }

  // ---- changing a file's text ----

  lemma ContentWellFormed(t: Tree, n: NodeId, content: Text)
    requires t.WellFormed() && n in t.nodes
    ensures t.WithContent(n, content).WellFormed()
  {
    var u := t.WithContent(n, content);
    var rank :| t.Ranked(rank);
    forall x ensures u.RankedAt(rank, x) && u.UnderDir(x) {
      assert t.RankedAt(rank, x) && t.UnderDir(x);
    }
    assert u.Ranked(rank);
    forall x, y ensures u.NoClash(x, y) {
      assert t.NoClash(x, y);
    }
  }

  lemma ContentSlots(t: Tree, n: NodeId, content: Text)
    requires t.WellFormed() && n in t.nodes
    ensures var u := t.WithContent(n, content);
      && u.WellFormed()
      && (forall q, m | q != Trash :: u.ChildNamed(q, m) == t.ChildNamed(q, m))
  {
    var u := t.WithContent(n, content);
    ContentWellFormed(t, n, content);
    forall q, m | q != Trash ensures u.ChildNamed(q, m) == t.ChildNamed(q, m) {
      SlotHolds(t, q, m);
      SlotHolds(u, q, m);
    }
  }

  lemma {:induction false} WalkSame(t: Tree, u: Tree, p: Place, cs: seq<string>)
    requires p != Trash && forall q, m | q != Trash :: u.ChildNamed(q, m) == t.ChildNamed(q, m)
    ensures Walk(u, p, cs) == Walk(t, p, cs)
    decreases |cs|
  {
    if cs != [] && t.ChildNamed(p, cs[0]).Some? {
      WalkSame(t, u, Under(t.ChildNamed(p, cs[0]).value), cs[1..]);
    }
  }

  /** Text edits move no path. */
  lemma ContentEffect(t: Tree, n: NodeId, content: Text, cs: seq<string>)
    requires t.WellFormed() && n in t.nodes
    ensures t.WithContent(n, content).WellFormed()
    ensures Walk(t.WithContent(n, content), Root, cs) == Walk(t, Root, cs)
  {
    ContentSlots(t, n, content);
    WalkSame(t, t.WithContent(n, content), Root, cs);
  }

  // ---- moving a node over a free or cleared slot ----

  /** `n` goes to slot `name` of `p`, and `gone`, if any, is deleted on the way. */
  function Replaced(t: Tree, n: NodeId, p: Place, name: string, gone: Option<NodeId>): Tree
    requires n in t.nodes && (gone.Some? ==> gone.value in t.nodes)
  {
    var moved := t.Moved(n, p);
    (if gone.Some? then moved.Deleted(gone.value) else moved).Renamed(n, name)
  }

  /** The slot `n` moves to holds nothing but `gone`, a childless node, or `n` itself. */
  ghost predicate CanReplace(t: Tree, n: NodeId, p: Place, name: string, gone: Option<NodeId>) {
    && n in t.nodes && p != Trash
    && (p.Under? ==> t.KindOf(p.parent) == Some(Dir))
    && !Beneath(t, n, p)
    && t.ChildNamed(p, name) in {None, Some(n), gone}
    && (gone.Some? ==>
          && gone.value != n && t.ChildNamed(p, name) == gone && gone.value in t.nodes
          && forall x | x in t.nodes :: t.nodes[x].place != Under(gone.value))
  }

  /** Where `Replaced` puts a node. */
  lemma ReplacedNode(t: Tree, n: NodeId, p: Place, name: string, gone: Option<NodeId>, x: NodeId)
    requires CanReplace(t, n, p, name, gone)
    ensures var u := Replaced(t, n, p, name, gone);
      && (x in u.nodes <==> x in t.nodes)
      && (x == n ==> u.nodes[x] == t.nodes[n].(place := p, name := Some(name)))
      && (x != n && gone == Some(x) ==> u.nodes[x] == t.nodes[x].(place := Trash))
      && (x != n && gone != Some(x) && x in t.nodes ==> u.nodes[x] == t.nodes[x])
      && u.order == Without(t.order, n) + [n]
  {
  }

  lemma ReplaceRanked(t: Tree, n: NodeId, p: Place, name: string, gone: Option<NodeId>)
    requires t.WellFormed() && CanReplace(t, n, p, name, gone)
    ensures Replaced(t, n, p, name, gone).Acyclic()
  {
    hide Replaced, Beneath, Tree.WellFormed;
    var u := Replaced(t, n, p, name, gone);
    var r := RankOf(t);
    var lift: nat := if p.Under? then r[p.parent] + 1 else 1;
    var rank: map<NodeId, nat> := map x | x in r :: if Beneath(t, n, Under(x)) then r[x] + lift else r[x];
    forall x ensures u.RankedAt(rank, x) && (x in u.nodes <==> x in r) {
      ReplacedNode(t, n, p, name, gone, x);
      assert t.RankedAt(r, x);
      if x in t.nodes {
        BeneathStep(t, n, x);
      }
    }
    assert u.Ranked(rank);
  }

  lemma ReplaceKeepsDirs(t: Tree, n: NodeId, p: Place, name: string, gone: Option<NodeId>)
    requires t.DirsOnly() && CanReplace(t, n, p, name, gone)
    ensures Replaced(t, n, p, name, gone).DirsOnly()
  {
    hide Replaced, Beneath;
    var u := Replaced(t, n, p, name, gone);
    forall x ensures u.UnderDir(x) {
      ReplacedNode(t, n, p, name, gone, x);
      assert t.UnderDir(x);
      if p.Under? {
        ReplacedNode(t, n, p, name, gone, p.parent);
      }
      if x in t.nodes && t.nodes[x].place.Under? {
        ReplacedNode(t, n, p, name, gone, t.nodes[x].place.parent);
      }
    }
  }

  lemma ReplaceKeepsNames(t: Tree, n: NodeId, p: Place, name: string, gone: Option<NodeId>)
    requires t.WellFormed() && CanReplace(t, n, p, name, gone)
    ensures Replaced(t, n, p, name, gone).UniqueNames()
  {
    hide Replaced, Beneath;
    var u := Replaced(t, n, p, name, gone);
    SlotHolds(t, p, name);
    forall x, y ensures u.NoClash(x, y) {
      ReplacedNode(t, n, p, name, gone, x);
      ReplacedNode(t, n, p, name, gone, y);
      assert t.NoClash(x, y);
    }
  }

  lemma ReplaceKeepsListed(t: Tree, n: NodeId, p: Place, name: string, gone: Option<NodeId>)
    requires t.Listed() && CanReplace(t, n, p, name, gone)
    ensures Replaced(t, n, p, name, gone).Listed()
  {
    hide Replaced, Beneath, Without;
    var u := Replaced(t, n, p, name, gone);
    WithoutKeeps(t.order, n);
    forall x ensures x in u.nodes <==> x in t.nodes {
      ReplacedNode(t, n, p, name, gone, x);
    }
    ReplacedNode(t, n, p, name, gone, n);
  }

  lemma ReplaceWellFormed(t: Tree, n: NodeId, p: Place, name: string, gone: Option<NodeId>)
    requires t.WellFormed() && CanReplace(t, n, p, name, gone)
    ensures Replaced(t, n, p, name, gone).WellFormed()
  {
    hide Replaced, CanReplace, Tree.Acyclic, Tree.DirsOnly, Tree.UniqueNames, Tree.Listed;
    ReplaceRanked(t, n, p, name, gone);
    ReplaceKeepsDirs(t, n, p, name, gone);
    ReplaceKeepsNames(t, n, p, name, gone);
    ReplaceKeepsListed(t, n, p, name, gone);
  }

  lemma ReplaceSlot(t: Tree, n: NodeId, p: Place, name: string, gone: Option<NodeId>, q: Place, m: string)
    requires t.WellFormed() && CanReplace(t, n, p, name, gone)
    requires t.PlaceOf(n) != Trash && q != Trash
    ensures Replaced(t, n, p, name, gone).WellFormed()
    ensures Replaced(t, n, p, name, gone).ChildNamed(q, m) ==
            if q == p && m == name then Some(n)
            else if q == t.PlaceOf(n) && t.NameOf(n) == Some(m) then None
            else t.ChildNamed(q, m)
  {
    hide Replaced, Beneath;
    var u := Replaced(t, n, p, name, gone);
    ReplaceWellFormed(t, n, p, name, gone);
    SlotHolds(t, p, name);
    SlotHolds(t, q, m);
    SlotHolds(u, q, m);
    ReplacedNode(t, n, p, name, gone, n);
    var was, now := t.ChildNamed(q, m), u.ChildNamed(q, m);
    if was.Some? {
      ReplacedNode(t, n, p, name, gone, was.value);
    }
    if now.Some? {
      ReplacedNode(t, n, p, name, gone, now.value);
    }
  }

  lemma ReplaceSlots(t: Tree, n: NodeId, p: Place, name: string, gone: Option<NodeId>)
    requires t.WellFormed() && CanReplace(t, n, p, name, gone)
    requires t.PlaceOf(n) != Trash
    ensures var u := Replaced(t, n, p, name, gone);
      && u.WellFormed()
      && forall q, m | q != Trash ::
           u.ChildNamed(q, m) ==
           if q == p && m == name then Some(n)
           else if q == t.PlaceOf(n) && t.NameOf(n) == Some(m) then None
           else t.ChildNamed(q, m)
  {
    hide Replaced, Beneath;
    var u := Replaced(t, n, p, name, gone);
    ReplaceWellFormed(t, n, p, name, gone);
    forall q, m | q != Trash
      ensures u.ChildNamed(q, m) ==
              if q == p && m == name then Some(n)
              else if q == t.PlaceOf(n) && t.NameOf(n) == Some(m) then None
              else t.ChildNamed(q, m)
    {
      ReplaceSlot(t, n, p, name, gone, q, m);
    }
  }

  /** Paths of the moved subtree, seen from inside it, are what they were. */
  lemma InsideUnchanged(t: Tree, n: NodeId, p: Place, name: string, gone: Option<NodeId>, rest: seq<string>)
    requires t.WellFormed() && CanReplace(t, n, p, name, gone)
    requires t.PlaceOf(n) != Trash && t.NameOf(n).Some?
    ensures Walk(Replaced(t, n, p, name, gone), Under(n), rest) == Walk(t, Under(n), rest)
  {
    hide Replaced;
    var q0, m0 := t.PlaceOf(n), t.NameOf(n).value;
    assert Climb(t, Under(n), 0) == Under(n);
    NotBeneathItself(t, n);
    forall k | 0 <= k < |rest| && Walk(t, Under(n), rest[..k]).Some?
      ensures Beneath(t, n, Walk(t, Under(n), rest[..k]).value)
    {
      WalkBeneath(t, n, Under(n), rest[..k]);
    }
    assert Avoids(t, Under(n), rest, p, name);
    assert Avoids(t, Under(n), rest, q0, m0);
    ReplaceSlots(t, n, p, name, gone);
    WalkAgrees(t, Replaced(t, n, p, name, gone), Under(n), rest, p, name, q0, m0);
  }

  /** Paths that run through neither end of the move are what they were. */
  lemma OutsideUnchanged(t: Tree, n: NodeId, p: Place, name: string, gone: Option<NodeId>,
                            from: seq<string>, to: seq<string>, cs: seq<string>)
    requires t.WellFormed() && CanReplace(t, n, p, name, gone)
    requires from != [] && Walk(t, Root, from) == Some(Under(n))
    requires to != [] && Walk(t, Root, to[..|to| - 1]) == Some(p) && to[|to| - 1] == name
    requires !(from <= cs) && !(to <= cs)
    ensures Walk(Replaced(t, n, p, name, gone), Root, cs) == Walk(t, Root, cs)
  {
    hide Replaced, Beneath;
    WalkLast(t, Root, from);
    ReplaceSlots(t, n, p, name, gone);
    AvoidsSlot(t, cs, from, t.PlaceOf(n));
    AvoidsSlot(t, cs, to, p);
    WalkAgrees(t, Replaced(t, n, p, name, gone), Root, cs, p, name, t.PlaceOf(n), from[|from| - 1]);
  }

  /** The new parent is not inside the moved node, so its path does not run through `from`. */
  lemma TargetIsOutside(t: Tree, n: NodeId, p: Place, from: seq<string>, up: seq<string>)
    requires t.WellFormed() && Walk(t, Root, from) == Some(Under(n)) && Walk(t, Root, up) == Some(p)
    requires !Beneath(t, n, p)
    ensures !(from <= up)
  {
    if from <= up {
      assert up == from + up[|from|..];
      WalkConcat(t, Root, from, up[|from|..]);
      assert Climb(t, Under(n), 0) == Under(n);
      WalkBeneath(t, n, Under(n), up[|from|..]);
    }
  }

  lemma {:induction false} MovedPath(t: Tree, n: NodeId, p: Place, name: string, gone: Option<NodeId>,
                  from: seq<string>, to: seq<string>, rest: seq<string>)
    requires t.WellFormed() && CanReplace(t, n, p, name, gone)
    requires from != [] && Walk(t, Root, from) == Some(Under(n))
    requires to != [] && Walk(t, Root, to[..|to| - 1]) == Some(p) && to[|to| - 1] == name
    ensures Walk(Replaced(t, n, p, name, gone), Root, to + rest) == Walk(t, Root, from + rest)
  {
    hide Replaced, Beneath, Tree.WellFormed, Walk;
    var u, up := Replaced(t, n, p, name, gone), to[..|to| - 1];
    WalkLast(t, Root, from);
    TargetIsOutside(t, n, p, from, up);
    OutsideUnchanged(t, n, p, name, gone, from, to, up);
    ReplaceSlot(t, n, p, name, gone, p, name);
    assert to + rest == up + ([name] + rest);
    WalkConcat(u, Root, up, [name] + rest);
    WalkStep(u, p, name, rest);
    InsideUnchanged(t, n, p, name, gone, rest);
    WalkConcat(t, Root, from, rest);
  }

  lemma SameSlotSamePath(t: Tree, n: NodeId, p: Place, from: seq<string>, to: seq<string>)
    requires t.WellFormed() && from != [] && to != []
    requires Walk(t, Root, from) == Some(Under(n)) && Walk(t, Root, to[..|to| - 1]) == Some(p)
    requires n in t.nodes && t.PlaceOf(n) == p && from[|from| - 1] == to[|to| - 1]
    ensures from == to
  {
    WalkLast(t, Root, from);
    PathUnique(t, from[..|from| - 1], to[..|to| - 1]);
    assert from == from[..|from| - 1] + [from[|from| - 1]] && to == to[..|to| - 1] + [to[|to| - 1]];
  }

  lemma VacatedPath(t: Tree, n: NodeId, p: Place, name: string, gone: Option<NodeId>,
                    from: seq<string>, to: seq<string>, rest: seq<string>)
    requires t.WellFormed() && CanReplace(t, n, p, name, gone)
    requires from != [] && Walk(t, Root, from) == Some(Under(n))
    requires to != [] && Walk(t, Root, to[..|to| - 1]) == Some(p) && to[|to| - 1] == name
    requires !(to <= from + rest)
    ensures Walk(Replaced(t, n, p, name, gone), Root, from + rest) == None
  {
    hide Replaced, Beneath, Tree.WellFormed;
    var u, k := Replaced(t, n, p, name, gone), |from| - 1;
    var up, m := from[..k], from[k];
    WalkLast(t, Root, from);
    assert up <= from + rest && from <= from + rest;
    OutsideUnchanged(t, n, p, name, gone, from, to, up);
    if t.PlaceOf(n) == p && m == name {
      SameSlotSamePath(t, n, p, from, to);
    }
    ReplaceSlot(t, n, p, name, gone, t.PlaceOf(n), m);
    assert from + rest == up + ([m] + rest);
    WalkConcat(u, Root, up, [m] + rest);
  }

  /**
   A move rewrites paths exactly: below `to` is what was below `from`, below
   `from` is nothing any more, and every other path leads where it led.
   */
  lemma {:induction false} ReplaceEffect(t: Tree, n: NodeId, p: Place, name: string, gone: Option<NodeId>,
                      from: seq<string>, to: seq<string>, cs: seq<string>)
    requires t.WellFormed() && CanReplace(t, n, p, name, gone)
    requires from != [] && Walk(t, Root, from) == Some(Under(n))
    requires to != [] && Walk(t, Root, to[..|to| - 1]) == Some(p) && to[|to| - 1] == name
    ensures Replaced(t, n, p, name, gone).WellFormed()
    ensures Walk(Replaced(t, n, p, name, gone), Root, cs) ==
            if to <= cs then Walk(t, Root, from + cs[|to|..])
            else if from <= cs then None
            else Walk(t, Root, cs)
  {
    hide Replaced, Beneath, Walk;
    ReplaceWellFormed(t, n, p, name, gone);
    if to <= cs {
      assert cs == to + cs[|to|..];
      MovedPath(t, n, p, name, gone, from, to, cs[|to|..]);
    } else if from <= cs {
      assert cs == from + cs[|from|..];
      VacatedPath(t, n, p, name, gone, from, to, cs[|from|..]);
    } else {
      OutsideUnchanged(t, n, p, name, gone, from, to, cs);
    }
  }
}
