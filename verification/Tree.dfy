/**
 The file tree as identity-keyed nodes. A node says where it hangs; `order` is
 the order in which nodes were last placed, and children are listed in it.
 */
module FileTree {
  import opened Wrappers
  import opened SharedText

  type NodeId = nat

  datatype Kind = File | Dir | Boundary

  /** Where a node hangs: at the top, under a node, or deleted. */
  datatype Place = Root | Under(parent: NodeId) | Trash

  /** Metadata written by a peer may be missing. */
  datatype Node = Node(place: Place, name: Option<string>, kind: Option<Kind>, content: Option<Text>)

  datatype Tree = Tree(nodes: map<NodeId, Node>, order: seq<NodeId>) {
    function KindOf(n: NodeId): Option<Kind> {
      if n in nodes then nodes[n].kind else None
    }

    function NameOf(n: NodeId): Option<string> {
      if n in nodes then nodes[n].name else None
    }

    function PlaceOf(n: NodeId): Place
      requires n in nodes
    {
      nodes[n].place
    }

    function Children(p: Place): seq<NodeId> {
      Hanging(order, p)
    }

    function Hanging(ids: seq<NodeId>, p: Place): seq<NodeId> {
      if ids == [] then []
      else if ids[0] in nodes && nodes[ids[0]].place == p then [ids[0]] + Hanging(ids[1..], p)
      else Hanging(ids[1..], p)
    }

    /** The first of `ids` that is called `name`. */
    function FirstNamed(ids: seq<NodeId>, name: string): Option<NodeId> {
      if ids == [] then None
      else if NameOf(ids[0]) == Some(name) then Some(ids[0])
      else FirstNamed(ids[1..], name)
    }

    function ChildNamed(p: Place, name: string): Option<NodeId> {
      FirstNamed(Children(p), name)
    }

    // ---- the tree container's own operations ----

    function Create(n: NodeId, p: Place, name: string, kind: Kind, content: Option<Text>): Tree {
      Tree(nodes[n := Node(p, Some(name), Some(kind), content)], order + [n])
    }

    /** Put `n` last under `p`. */
    function Moved(n: NodeId, p: Place): Tree
      requires n in nodes
    {
      Tree(nodes[n := nodes[n].(place := p)], Without(order, n) + [n])
    }

    function Renamed(n: NodeId, name: string): Tree
      requires n in nodes
    {
      this.(nodes := nodes[n := nodes[n].(name := Some(name))])
    }

    function Deleted(n: NodeId): Tree
      requires n in nodes
    {
      this.(nodes := nodes[n := nodes[n].(place := Trash)])
    }

    function WithContent(n: NodeId, content: Text): Tree
      requires n in nodes
    {
      this.(nodes := nodes[n := nodes[n].(content := Some(content))])
    }

    // ---- well-formed trees ----

    ghost predicate RankedAt(rank: map<NodeId, nat>, n: NodeId) {
      n in nodes && nodes[n].place.Under? ==>
        n in rank && nodes[n].place.parent in rank && rank[nodes[n].place.parent] < rank[n]
    }

    /** Every node ranks above the node it hangs under. */
    ghost predicate Ranked(rank: map<NodeId, nat>) {
      rank.Keys == nodes.Keys && forall n {:trigger RankedAt(rank, n)} :: RankedAt(rank, n)
    }

    ghost predicate Acyclic() {
      exists rank: map<NodeId, nat> :: Ranked(rank)
    }

    ghost predicate NoClash(a: NodeId, b: NodeId) {
      a in nodes && b in nodes && a != b && nodes[a].place == nodes[b].place != Trash ==>
        nodes[a].name == None || nodes[a].name != nodes[b].name
    }

    ghost predicate UniqueNames() {
      forall a, b {:trigger NoClash(a, b)} :: NoClash(a, b)
    }

    ghost predicate UnderDir(n: NodeId) {
      n in nodes && nodes[n].place.Under? ==> KindOf(nodes[n].place.parent) == Some(Dir)
    }

    /** Only directories have children. */
    ghost predicate DirsOnly() {
      forall n {:trigger UnderDir(n)} :: UnderDir(n)
    }

    ghost predicate Listed() {
      && (forall n :: n in order <==> n in nodes)
      && (forall i, j | 0 <= i < j < |order| :: order[i] != order[j])
    }

    ghost predicate WellFormed() {
      Listed() && Acyclic() && UniqueNames() && DirsOnly()
    }
  }

  function Without(ids: seq<NodeId>, n: NodeId): seq<NodeId> {
    if ids == [] then []
    else if ids[0] == n then Without(ids[1..], n)
    else [ids[0]] + Without(ids[1..], n)
  }

  lemma {:induction false} WithoutKeeps(ids: seq<NodeId>, n: NodeId)
    requires forall i, j | 0 <= i < j < |ids| :: ids[i] != ids[j]
    ensures forall x :: x in Without(ids, n) <==> x in ids && x != n
    ensures forall i, j | 0 <= i < j < |Without(ids, n)| :: Without(ids, n)[i] != Without(ids, n)[j]
  {
    if ids != [] {
      WithoutKeeps(ids[1..], n);
      assert forall x :: x in ids <==> x == ids[0] || x in ids[1..];
      assert ids[0] !in ids[1..];
      assert ids[0] !in Without(ids[1..], n);
    }
  }

  lemma {:induction false} HangingHolds(t: Tree, ids: seq<NodeId>, p: Place)
    ensures forall n :: n in t.Hanging(ids, p) <==> n in ids && n in t.nodes && t.nodes[n].place == p
  {
    if ids != [] {
      HangingHolds(t, ids[1..], p);
      assert forall x :: x in ids <==> x == ids[0] || x in ids[1..];
    }
  }

  lemma {:induction false} HangingApart(t: Tree, ids: seq<NodeId>, p: Place)
    requires forall i, j | 0 <= i < j < |ids| :: ids[i] != ids[j]
    ensures forall i, j | 0 <= i < j < |t.Hanging(ids, p)| :: t.Hanging(ids, p)[i] != t.Hanging(ids, p)[j]
  {
    if ids != [] {
      HangingApart(t, ids[1..], p);
      HangingHolds(t, ids[1..], p);
      assert ids[0] !in ids[1..];
    }
  }

  lemma {:induction false} FirstNamedFinds(t: Tree, ids: seq<NodeId>, name: string)
    ensures match t.FirstNamed(ids, name)
            case Some(n) => n in ids && t.NameOf(n) == Some(name)
            case None => forall n | n in ids :: t.NameOf(n) != Some(name)
  {
    if ids != [] {
      FirstNamedFinds(t, ids[1..], name);
    }
  }

  /** With unique names, a lookup finds exactly the one node at that slot. */
  lemma SlotHolds(t: Tree, p: Place, name: string)
    requires t.WellFormed() && p != Trash
    ensures forall n :: t.ChildNamed(p, name) == Some(n) <==>
      n in t.nodes && t.nodes[n].place == p && t.nodes[n].name == Some(name)
    ensures t.ChildNamed(p, name) == None <==>
      forall n | n in t.nodes && t.nodes[n].place == p :: t.nodes[n].name != Some(name)
  {
    HangingHolds(t, t.order, p);
    FirstNamedFinds(t, t.Children(p), name);
    var found := t.ChildNamed(p, name);
    forall n | n in t.nodes && t.nodes[n].place == p && t.nodes[n].name == Some(name) ensures found == Some(n) {
      assert n in t.Children(p) && found.Some?;
      assert t.NoClash(n, found.value);
    }
  }

  lemma ParentInTree(t: Tree, n: NodeId)
    requires t.WellFormed() && n in t.nodes && t.nodes[n].place.Under?
    ensures t.nodes[n].place.parent in t.nodes && t.KindOf(t.nodes[n].place.parent) == Some(Dir)
  {
    assert t.UnderDir(n);
  }

  /** A node found by name is one of the listed children. */
  lemma FoundIsChild(t: Tree, p: Place, name: string)
    ensures match t.ChildNamed(p, name)
            case Some(n) => n in t.Children(p) && t.NameOf(n) == Some(name)
            case None => forall n | n in t.Children(p) :: t.NameOf(n) != Some(name)
  {
    FirstNamedFinds(t, t.Children(p), name);
  }

  lemma RankOf(t: Tree) returns (rank: map<NodeId, nat>)
    requires t.WellFormed()
    ensures t.Ranked(rank)
  {
    rank :| t.Ranked(rank);
  }

  lemma RankFalls(t: Tree, rank: map<NodeId, nat>, n: NodeId)
    requires t.Ranked(rank) && n in t.nodes && t.nodes[n].place.Under?
    ensures n in rank && t.nodes[n].place.parent in rank && rank[t.nodes[n].place.parent] < rank[n]
  {
    assert t.RankedAt(rank, n);
  }

  lemma SameSlotSameNode(t: Tree, a: NodeId, b: NodeId)
    requires t.WellFormed() && a in t.nodes && b in t.nodes
    requires t.nodes[a].place == t.nodes[b].place != Trash && t.nodes[a].name == t.nodes[b].name != None
    ensures a == b
  {
    assert t.NoClash(a, b);
  }

  /** Only a directory of the tree has anything under it. */
  lemma ParentIsDir(t: Tree, n: NodeId, name: string)
    requires t.WellFormed()
    ensures t.ChildNamed(Under(n), name).Some? ==> t.KindOf(n) == Some(Dir)
  {
    SlotHolds(t, Under(n), name);
    var found := t.ChildNamed(Under(n), name);
    if found.Some? {
      assert t.UnderDir(found.value);
    }
  }

  // ---- following names downwards ----

  /** Where the names `cs` lead from `p`. */
  function Walk(t: Tree, p: Place, cs: seq<string>): Option<Place>
    decreases |cs|
  {
    if cs == [] then Some(p)
    else match t.ChildNamed(p, cs[0])
         case None => None
         case Some(n) => Walk(t, Under(n), cs[1..])
  }

  function NodeAt(t: Tree, cs: seq<string>): Option<NodeId> {
    match Walk(t, Root, cs) case Some(Under(n)) => Some(n) case _ => None
  }

  lemma WalkStep(t: Tree, p: Place, name: string, rest: seq<string>)
    ensures Walk(t, p, [name] + rest) ==
            match t.ChildNamed(p, name) case None => None case Some(n) => Walk(t, Under(n), rest)
  {
    assert ([name] + rest)[1..] == rest;
  }

  lemma {:induction false} WalkConcat(t: Tree, p: Place, a: seq<string>, b: seq<string>)
    ensures Walk(t, p, a + b) == match Walk(t, p, a) case None => None case Some(q) => Walk(t, q, b)
    decreases |a|
  {
    if a == [] {
      assert a + b == b;
    } else {
      assert (a + b)[1..] == a[1..] + b && (a + b)[0] == a[0];
      match t.ChildNamed(p, a[0])
      case None =>
      case Some(n) => WalkConcat(t, Under(n), a[1..], b);
    }
  }

  /** The last name of a path is the node's own, and the rest leads to its parent. */
  lemma WalkLast(t: Tree, p: Place, cs: seq<string>)
    requires t.WellFormed() && p != Trash && cs != [] && Walk(t, p, cs).Some?
    ensures var k := |cs| - 1;
      && Walk(t, p, cs).value.Under? && Walk(t, p, cs).value.parent in t.nodes
      && t.NameOf(Walk(t, p, cs).value.parent) == Some(cs[k])
      && Walk(t, p, cs[..k]) == Some(t.PlaceOf(Walk(t, p, cs).value.parent))
      && t.PlaceOf(Walk(t, p, cs).value.parent) != Trash
  {
    var k := |cs| - 1;
    assert cs == cs[..k] + [cs[k]];
    WalkConcat(t, p, cs[..k], [cs[k]]);
    var q := Walk(t, p, cs[..k]).value;
    if k > 0 {
      WalkNotTrash(t, p, cs[..k]);
    }
    SlotHolds(t, q, cs[k]);
    assert Walk(t, q, [cs[k]]) == Walk(t, Under(t.ChildNamed(q, cs[k]).value), []);
  }

  lemma {:induction false} WalkNotTrash(t: Tree, p: Place, cs: seq<string>)
    requires Walk(t, p, cs).Some? && cs != []
    ensures Walk(t, p, cs).value.Under?
    decreases |cs|
  {
    if |cs| > 1 {
      WalkNotTrash(t, Under(t.ChildNamed(p, cs[0]).value), cs[1..]);
    }
  }

  /** Where climbing `k` steps up from `p` leads. */
  ghost function Climb(t: Tree, p: Place, k: nat): Place
    decreases k
  {
    if k > 0 && p.Under? && p.parent in t.nodes then Climb(t, t.nodes[p.parent].place, k - 1) else p
  }

  /** `p` is the inside of `n`, or lies below it. */
  ghost predicate Beneath(t: Tree, n: NodeId, p: Place) {
    exists k: nat :: Climb(t, p, k) == Under(n)
  }

  lemma BeneathStep(t: Tree, n: NodeId, m: NodeId)
    requires m in t.nodes
    ensures Beneath(t, n, Under(m)) <==> n == m || Beneath(t, n, t.nodes[m].place)
  {
    assert Climb(t, Under(n), 0) == Under(n);
    if Beneath(t, n, Under(m)) && n != m {
      var k: nat :| Climb(t, Under(m), k) == Under(n);
      assert Climb(t, t.nodes[m].place, k - 1) == Under(n);
    }
    if Beneath(t, n, t.nodes[m].place) {
      var k: nat :| Climb(t, t.nodes[m].place, k) == Under(n);
      assert Climb(t, Under(m), k + 1) == Under(n);
    }
  }

  /** Whatever is reached downwards from inside `n` lies beneath `n`. */
  lemma {:induction false} WalkBeneath(t: Tree, n: NodeId, p: Place, cs: seq<string>)
    requires t.WellFormed() && p != Trash && Beneath(t, n, p) && Walk(t, p, cs).Some?
    ensures Beneath(t, n, Walk(t, p, cs).value)
    decreases |cs|
  {
    if cs != [] {
      SlotHolds(t, p, cs[0]);
      var m := t.ChildNamed(p, cs[0]).value;
      BeneathStep(t, n, m);
      WalkBeneath(t, n, Under(m), cs[1..]);
    }
  }

  lemma {:induction false} ClimbRank(t: Tree, rank: map<NodeId, nat>, p: Place, k: nat)
    requires t.Ranked(rank) && p.Under? && p.parent in rank && Climb(t, p, k).Under?
    ensures Climb(t, p, k).parent in rank && rank[Climb(t, p, k).parent] <= rank[p.parent]
    decreases k
  {
    if k > 0 && t.nodes[p.parent].place.Under? {
      assert t.RankedAt(rank, p.parent);
      ClimbRank(t, rank, t.nodes[p.parent].place, k - 1);
    }
  }

  /** No node lies beneath itself. */
  lemma NotBeneathItself(t: Tree, n: NodeId)
    requires t.Acyclic() && n in t.nodes
    ensures !Beneath(t, n, t.nodes[n].place)
  {
    var rank :| t.Ranked(rank);
    var p := t.nodes[n].place;
    assert t.RankedAt(rank, n);
    forall k: nat ensures Climb(t, p, k) != Under(n) {
      if p.Under? && Climb(t, p, k) == Under(n) {
        ClimbRank(t, rank, p, k);
      }
    }
  }

  /** A place has one path: the tree never offers two ways to it. */
  lemma {:induction false} PathUnique(t: Tree, a: seq<string>, b: seq<string>)
    requires t.WellFormed() && Walk(t, Root, a).Some? && Walk(t, Root, a) == Walk(t, Root, b)
    ensures a == b
    decreases |a| + |b|
  {
    if a == [] && b != [] {
      WalkNotTrash(t, Root, b);
    } else if b == [] && a != [] {
      WalkNotTrash(t, Root, a);
    } else if a != [] {
      WalkLast(t, Root, a);
      WalkLast(t, Root, b);
      PathUnique(t, a[..|a| - 1], b[..|b| - 1]);
      assert a == a[..|a| - 1] + [a[|a| - 1]] && b == b[..|b| - 1] + [b[|b| - 1]];
    }
  }

  // ---- what an edit does to paths ----

  /** From `p`, the names `cs` never use the slot `name` of `q`. */
  ghost predicate Avoids(t: Tree, p: Place, cs: seq<string>, q: Place, name: string) {
    forall k | 0 <= k < |cs| :: !(Walk(t, p, cs[..k]) == Some(q) && cs[k] == name)
  }

  /** Trees that differ in two slots agree on every walk that avoids both. */
  lemma {:induction false} WalkAgrees(t: Tree, u: Tree, p: Place, cs: seq<string>,
                                         q1: Place, n1: string, q2: Place, n2: string)
    requires p != Trash
    requires forall q, n | q != Trash && (q, n) != (q1, n1) && (q, n) != (q2, n2) ::
      u.ChildNamed(q, n) == t.ChildNamed(q, n)
    requires Avoids(t, p, cs, q1, n1) && Avoids(t, p, cs, q2, n2)
    ensures Walk(u, p, cs) == Walk(t, p, cs)
    decreases |cs|
  {
    if cs != [] {
      assert Walk(t, p, cs[..0]) == Some(p);
      match t.ChildNamed(p, cs[0])
      case None =>
      case Some(m) =>
        forall k | 0 <= k < |cs[1..]| ensures Walk(t, Under(m), cs[1..][..k]) == Walk(t, p, cs[..k + 1]) {
          assert cs[..k + 1][1..] == cs[1..][..k];
        }
        WalkAgrees(t, u, Under(m), cs[1..], q1, n1, q2, n2);
    }
  }

  /** A path that uses the last slot of `at` runs through `at`. */
  lemma SlotIsOnPath(t: Tree, cs: seq<string>, k: nat, at: seq<string>)
    requires t.WellFormed() && at != [] && k < |cs|
    requires Walk(t, Root, cs[..k]).Some? && Walk(t, Root, cs[..k]) == Walk(t, Root, at[..|at| - 1])
    requires cs[k] == at[|at| - 1]
    ensures at <= cs
  {
    PathUnique(t, cs[..k], at[..|at| - 1]);
    assert at == at[..|at| - 1] + [at[|at| - 1]] == cs[..k + 1];
  }

  lemma AvoidsSlot(t: Tree, cs: seq<string>, at: seq<string>, q: Place)
    requires t.WellFormed() && at != [] && Walk(t, Root, at[..|at| - 1]) == Some(q)
    ensures at <= cs || Avoids(t, Root, cs, q, at[|at| - 1])
  {
    forall k | 0 <= k < |cs| && Walk(t, Root, cs[..k]) == Some(q) && cs[k] == at[|at| - 1] ensures at <= cs {
      SlotIsOnPath(t, cs, k, at);
    }
  }
}
