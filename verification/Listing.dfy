/** Listing every path of a tree, and finding the path of a node. */
module Listing {
  import opened Wrappers
  import opened Paths
  import opened FileTree
  import opened Docs
  import opened DocFs

  /** The names `at` lead to `p`, and `path` spells them. */
  ghost predicate Located(t: Tree, p: Place, at: seq<string>, path: string) {
    Walk(t, Root, at) == Some(p) && p != Trash && AllValid(at) && path == Join(at)
  }

  /** A stacked or listed item names `node` by its own path. */
  ghost predicate Names(t: Tree, cs: seq<string>, node: NodeId, path: string) {
    cs != [] && Located(t, Under(node), cs, path)
  }

  ghost predicate AllName(t: Tree, keys: seq<seq<string>>, items: seq<(NodeId, string)>) {
    |keys| == |items| && forall k | 0 <= k < |keys| :: Names(t, keys[k], items[k].0, items[k].1)
  }

  /** No key of `keys` lies on the way to another. */
  ghost predicate Apart(keys: seq<seq<string>>) {
    forall i, j | 0 <= i < |keys| && 0 <= j < |keys| && i != j :: !(keys[i] <= keys[j])
  }

  /** Everything reachable is listed already or lies at or below a stacked key. */
  ghost predicate Complete(t: Tree, keys: seq<seq<string>>, done: seq<seq<string>>) {
    forall cs: seq<string>, n {:trigger Reachable(t, cs, n)} :: Reachable(t, cs, n) ==>
      cs in done || exists k :: 0 <= k < |keys| && keys[k] <= cs
  }

  /** The keys of the children of `p`, which lies at `at`. */
  ghost predicate ChildKeys(t: Tree, p: Place, at: seq<string>, keys: seq<seq<string>>) {
    && (forall key | key in keys :: key != [] && key[..|key| - 1] == at && ValidName(key[|key| - 1]))
    && (forall name :: ValidName(name) && t.ChildNamed(p, name).Some? ==> at + [name] in keys)
    && (forall i, j | 0 <= i < j < |keys| :: keys[i] != keys[j])
  }

  function ChildPath(path: string, name: string): string {
    if path == [] then name else path + "/" + name
  }

  predicate Pathed(t: Tree, n: NodeId) {
    t.NameOf(n).Some? && ValidName(t.NameOf(n).value)
  }

  /** What is stacked for the nodes `ids`, children of the place at `path`. */
  function Items(t: Tree, path: string, ids: seq<NodeId>): seq<(NodeId, string)> {
    if ids == [] then []
    else if Pathed(t, ids[0]) then [(ids[0], ChildPath(path, t.NameOf(ids[0]).value))] + Items(t, path, ids[1..])
    else Items(t, path, ids[1..])
  }

  ghost function Keys(t: Tree, at: seq<string>, ids: seq<NodeId>): seq<seq<string>> {
    if ids == [] then []
    else if Pathed(t, ids[0]) then [at + [t.NameOf(ids[0]).value]] + Keys(t, at, ids[1..])
    else Keys(t, at, ids[1..])
  }

  ghost predicate Siblings(t: Tree, p: Place, ids: seq<NodeId>) {
    && (forall n | n in ids :: n in t.nodes && t.nodes[n].place == p)
    && (forall i, j | 0 <= i < j < |ids| :: ids[i] != ids[j])
  }

  lemma {:induction false} ItemsNamed(t: Tree, p: Place, at: seq<string>, path: string, ids: seq<NodeId>)
    requires t.WellFormed() && Located(t, p, at, path) && Siblings(t, p, ids)
    ensures AllName(t, Keys(t, at, ids), Items(t, path, ids))
  {
    hide Located, Tree.WellFormed, ValidName;
    if ids != [] {
      ItemsNamed(t, p, at, path, ids[1..]);
      if Pathed(t, ids[0]) {
        ChildReachable(t, p, at, path, ids[0]);
      }
    }
  }

  lemma {:induction false} KeysCover(t: Tree, at: seq<string>, ids: seq<NodeId>)
    ensures forall n | n in ids && Pathed(t, n) :: at + [t.NameOf(n).value] in Keys(t, at, ids)
    ensures forall key | key in Keys(t, at, ids) ::
      exists n :: n in ids && Pathed(t, n) && key == at + [t.NameOf(n).value]
  {
    if ids != [] {
      KeysCover(t, at, ids[1..]);
    }
  }

  lemma {:induction false} KeysDiffer(t: Tree, p: Place, at: seq<string>, ids: seq<NodeId>)
    requires t.WellFormed() && p != Trash && Siblings(t, p, ids)
    ensures forall i, j | 0 <= i < j < |Keys(t, at, ids)| :: Keys(t, at, ids)[i] != Keys(t, at, ids)[j]
  {
    hide Tree.WellFormed;
    if ids != [] {
      KeysDiffer(t, p, at, ids[1..]);
      KeysCover(t, at, ids[1..]);
      if Pathed(t, ids[0]) {
        var key := at + [t.NameOf(ids[0]).value];
        if key in Keys(t, at, ids[1..]) {
          var n :| n in ids[1..] && Pathed(t, n) && key == at + [t.NameOf(n).value];
          assert key[|at|] == t.NameOf(n).value;
          SameSlotSameNode(t, n, ids[0]);
        }
      }
    }
  }

  lemma ChildrenAreSiblings(t: Tree, p: Place)
    requires t.WellFormed()
    ensures Siblings(t, p, t.Children(p))
  {
    HangingHolds(t, t.order, p);
    HangingApart(t, t.order, p);
  }

  /** Stack the children of `p` that have valid names, each with its path. */
  method PushChildren(t: Tree, p: Place, path: string, ghost at: seq<string>)
    returns (items: seq<(NodeId, string)>, ghost keys: seq<seq<string>>)
    requires t.WellFormed() && Located(t, p, at, path)
    ensures AllName(t, keys, items) && ChildKeys(t, p, at, keys)
  {
    hide Located, Tree.WellFormed, ValidName;
    var children := t.Children(p);
    items := [];
    for i := 0 to |children|
      invariant items + Items(t, path, children[i..]) == Items(t, path, children)
    {
      var name := t.NameOf(children[i]);
      assert children[i..][1..] == children[i + 1..];
      if name.Some? && ValidName(name.value) {
        items := items + [(children[i], ChildPath(path, name.value))];
      }
    }
    assert items + [] == items;
    keys := Keys(t, at, children);
    ChildrenAreSiblings(t, p);
    ItemsNamed(t, p, at, path, children);
    KeysAreChildKeys(t, p, at, path);
  }

  lemma KeysAreChildKeys(t: Tree, p: Place, at: seq<string>, path: string)
    requires t.WellFormed() && Located(t, p, at, path)
    ensures ChildKeys(t, p, at, Keys(t, at, t.Children(p)))
  {
    hide Tree.WellFormed, ValidName;
    var children := t.Children(p);
    ChildrenAreSiblings(t, p);
    KeysCover(t, at, children);
    KeysDiffer(t, p, at, children);
    forall key | key in Keys(t, at, children) ensures key != [] && key[..|key| - 1] == at && ValidName(key[|key| - 1]) {
      var n :| n in children && Pathed(t, n) && key == at + [t.NameOf(n).value];
    }
    forall name | ValidName(name) && t.ChildNamed(p, name).Some? ensures at + [name] in Keys(t, at, children) {
      FoundIsChild(t, p, name);
      assert Pathed(t, t.ChildNamed(p, name).value);
    }
  }

  lemma ChildReachable(t: Tree, p: Place, at: seq<string>, path: string, child: NodeId)
    requires t.WellFormed() && Located(t, p, at, path)
    requires child in t.nodes && t.PlaceOf(child) == p
    requires t.NameOf(child).Some? && ValidName(t.NameOf(child).value)
    ensures var name := t.NameOf(child).value;
      Names(t, at + [name], child, ChildPath(path, name))
  {
    var name := t.NameOf(child).value;
    SlotHolds(t, p, name);
    WalkConcat(t, Root, at, [name]);
    if at != [] {
      JoinAppend(at, name);
      JoinNotEmpty(at);
    } else {
      assert at + [name] == [name];
    }
  }

  lemma JoinNotEmpty(cs: seq<string>)
    requires cs != [] && AllValid(cs)
    ensures Join(cs) != []
  {
    assert ValidName(cs[0]);
  }

  /** Replacing a listed key by its children keeps the stack apart and complete. */
  lemma ExpandKey(t: Tree, keys: seq<seq<string>>, at: seq<string>, n: NodeId, path: string,
                  kids: seq<seq<string>>, done: seq<seq<string>>)
    requires t.WellFormed() && Names(t, at, n, path)
    requires Apart(keys + [at]) && Complete(t, keys + [at], done)
    requires if t.KindOf(n) == Some(Dir) then ChildKeys(t, Under(n), at, kids) else kids == []
    ensures Apart(keys + kids) && Complete(t, keys + kids, done + [at])
  {
    hide Tree.WellFormed, Walk;
    forall key | key in kids ensures at <= key && |key| == |at| + 1 {
      assert key == key[..|key| - 1] + [key[|key| - 1]];
    }
    forall i, j | 0 <= i < |keys + kids| && 0 <= j < |keys + kids| && i != j
      ensures !((keys + kids)[i] <= (keys + kids)[j])
    {
      ApartOne(keys, at, kids, i, j);
    }
    forall cs: seq<string>, x | Reachable(t, cs, x)
      ensures cs in done + [at] || exists k :: 0 <= k < |keys + kids| && (keys + kids)[k] <= cs
    {
      if cs !in done + [at] {
        StillCovered(t, keys, at, n, path, kids, done, cs, x);
      }
    }
  }

  /** A path not yet listed is still covered once a key gives way to its children. */
  lemma StillCovered(t: Tree, keys: seq<seq<string>>, at: seq<string>, n: NodeId, path: string,
                     kids: seq<seq<string>>, done: seq<seq<string>>, cs: seq<string>, x: NodeId)
    requires t.WellFormed() && Names(t, at, n, path) && Complete(t, keys + [at], done)
    requires if t.KindOf(n) == Some(Dir) then ChildKeys(t, Under(n), at, kids) else kids == []
    requires Reachable(t, cs, x) && cs !in done + [at]
    ensures exists k :: 0 <= k < |keys + kids| && (keys + kids)[k] <= cs
  {
    hide Tree.WellFormed, Walk;
    var all := keys + [at];
    assert (done + [at])[|done|] == at;
    var k :| 0 <= k < |all| && all[k] <= cs;
    if k < |keys| {
      assert (keys + kids)[k] <= cs;
    } else {
      StrictPrefix(at, cs);
      BelowKey(t, at, n, cs[|at|..]);
      var key := at + [cs[|at|]];
      var i :| 0 <= i < |kids| && kids[i] == key;
      assert (keys + kids)[|keys| + i] <= cs;
    }
  }

  lemma StrictPrefix(at: seq<string>, cs: seq<string>)
    requires at <= cs && at != cs
    ensures |cs| > |at| && cs == at + cs[|at|..] && cs[|at|] in cs && at + [cs[|at|]] <= cs
  {
    assert cs[..|at|] == at;
    assert cs[..|cs|] == cs;
  }

  lemma ApartOne(keys: seq<seq<string>>, at: seq<string>, kids: seq<seq<string>>, i: nat, j: nat)
    requires Apart(keys + [at]) && i < |keys + kids| && j < |keys + kids| && i != j
    requires forall key | key in kids :: at <= key && |key| == |at| + 1
    requires forall i, j | 0 <= i < j < |kids| :: kids[i] != kids[j]
    ensures !((keys + kids)[i] <= (keys + kids)[j])
  {
    var all, a, b := keys + [at], (keys + kids)[i], (keys + kids)[j];
    assert all[|keys|] == at;
    assert i >= |keys| ==> a in kids;
    assert j >= |keys| ==> b in kids;
    if i < |keys| {
      assert all[i] == a && !(a <= at) && !(at <= a);
    }
    if j < |keys| {
      assert all[j] == b && !(b <= at) && !(at <= b);
      if i < |keys| {
        assert !(all[i] <= all[j]);
      }
    }
  }

  /** A path strictly below `at` continues with a child of the directory there. */
  lemma BelowKey(t: Tree, at: seq<string>, n: NodeId, rest: seq<string>)
    requires t.WellFormed() && Walk(t, Root, at) == Some(Under(n))
    requires rest != [] && Walk(t, Root, at + rest).Some?
    ensures t.ChildNamed(Under(n), rest[0]).Some? && t.KindOf(n) == Some(Dir)
  {
    WalkConcat(t, Root, at, rest);
    ParentIsDir(t, n, rest[0]);
  }

  ghost predicate Listed(t: Tree, done: seq<seq<string>>, out: seq<(string, Entry)>) {
    |done| == |out| && forall k | 0 <= k < |done| ::
      Names(t, done[k], out[k].1.node, out[k].0) && out[k].1 == EntryOf(t, out[k].1.node)
  }

  /** `item` lists the node that `cs` leads to: under its path, with its last name and its kind. */
  ghost predicate Lists(t: Tree, item: (string, Entry), cs: seq<string>) {
    && Reachable(t, cs, item.1.node)
    && item == (Join(cs), Entry(item.1.node, cs[|cs| - 1], t.KindOf(item.1.node)))
  }

  ghost predicate Listable(t: Tree, item: (string, Entry)) {
    exists cs :: Lists(t, item, cs)
  }

  /**
   Walk the tree with a stack. Every node reachable through valid names is
   listed once, under the path that resolves to it.
   */
  method WalkAll(doc: Doc) returns (out: seq<(string, Entry)>)
    requires doc.Valid()
    ensures forall k | 0 <= k < |out| :: Resolve(doc.Tip(), out[k].0) == Ok(out[k].1.node)
    ensures forall k | 0 <= k < |out| :: Listable(doc.Tip(), out[k])
    ensures forall i, j | 0 <= i < j < |out| :: out[i].1.node != out[j].1.node && out[i].0 != out[j].0
    ensures forall cs: seq<string>, n {:trigger Reachable(doc.Tip(), cs, n)} :: Reachable(doc.Tip(), cs, n) ==>
      (Join(cs), Entry(n, cs[|cs| - 1], doc.Tip().KindOf(n))) in out
  {
    hide Located, Reachable, Listable, Apart, Complete, ChildKeys, Tree.WellFormed, Resolve, Walk;
    var t := doc.Tip();
    ghost var keys: seq<seq<string>>, done: seq<seq<string>>;
    var stack: seq<(NodeId, string)>;
    AtTop(t);
    stack, keys := PushChildren(t, Root, "", []);
    ghost var seen: set<NodeId> := {};
    out, done := [], [];
    StartComplete(t, keys);
    while stack != []
      invariant AllName(t, keys, stack) && Apart(keys) && Complete(t, keys, done) && Listed(t, done, out)
      invariant forall i, j | 0 <= i < j < |done| :: done[i] != done[j]
      invariant forall i, k | 0 <= i < |keys| && 0 <= k < |done| :: !(keys[i] <= done[k])
      invariant forall n | n in seen :: exists k :: 0 <= k < |out| && out[k].1.node == n
      decreases t.nodes.Keys - seen
    {
      var top := |stack| - 1;
      var (node, path) := stack[top];
      ghost var at := keys[top];
      assert Names(t, at, node, path);
      FreshNode(t, done, out, at, node, path);
      assert keys == keys[..top] + [at];
      stack := stack[..top];
      var kids: seq<(NodeId, string)> := [];
      ghost var below: seq<seq<string>> := [];
      if t.KindOf(node) == Some(Dir) {
        kids, below := PushChildren(t, Under(node), path, at);
      }
      ExpandKey(t, keys[..top], at, node, path, below, done);
      NotBelowDone(t, Under(node), keys[..top], at, below, done);
      stack := stack + kids;
      keys := keys[..top] + below;
      assert node !in seen && node in t.nodes;
      ListOne(t, done, out, at, node, path);
      seen := seen + {node};
      out, done := out + [(path, EntryOf(t, node))], done + [at];
    }
    ListingIsExact(t, done, out);
  }

  lemma ListOne(t: Tree, done: seq<seq<string>>, out: seq<(string, Entry)>, at: seq<string>, node: NodeId, path: string)
    requires Listed(t, done, out) && Names(t, at, node, path)
    requires forall k | 0 <= k < |out| :: out[k].1.node != node
    ensures Listed(t, done + [at], out + [(path, EntryOf(t, node))])
    ensures forall k | 0 <= k < |out| :: (out + [(path, EntryOf(t, node))])[k] == out[k]
    ensures (out + [(path, EntryOf(t, node))])[|out|].1.node == node
  {
  }

  lemma AtTop(t: Tree)
    ensures Located(t, Root, [], "")
  {
  }

  lemma StartComplete(t: Tree, keys: seq<seq<string>>)
    requires t.WellFormed() && ChildKeys(t, Root, [], keys)
    ensures Apart(keys) && Complete(t, keys, [])
  {
    forall key | key in keys ensures |key| == 1 {
      assert key == key[..|key| - 1] + [key[|key| - 1]];
    }
    forall cs: seq<string>, n | Reachable(t, cs, n) ensures exists k :: 0 <= k < |keys| && keys[k] <= cs {
      assert ValidName(cs[0]) && t.ChildNamed(Root, cs[0]).Some?;
      assert [] + [cs[0]] in keys;
      var k :| 0 <= k < |keys| && keys[k] == [] + [cs[0]];
      assert keys[k] <= cs;
    }
  }

  /** A node about to be listed was not listed before, and it is one of the tree's. */
  lemma FreshNode(t: Tree, done: seq<seq<string>>, out: seq<(string, Entry)>, at: seq<string>, node: NodeId,
                  path: string)
    requires t.WellFormed() && Listed(t, done, out) && Names(t, at, node, path)
    requires forall k | 0 <= k < |done| :: !(at <= done[k])
    ensures node in t.nodes && forall k | 0 <= k < |out| :: out[k].1.node != node
  {
    WalkLast(t, Root, at);
    forall k | 0 <= k < |out| && out[k].1.node == node ensures at <= done[k] {
      assert Names(t, done[k], out[k].1.node, out[k].0);
      PathUnique(t, at, done[k]);
    }
  }

  lemma NotBelowDone(t: Tree, p: Place, keys: seq<seq<string>>, at: seq<string>, below: seq<seq<string>>,
                     done: seq<seq<string>>)
    requires Apart(keys + [at]) && (below == [] || ChildKeys(t, p, at, below))
    requires forall i, k | 0 <= i < |keys + [at]| && 0 <= k < |done| :: !((keys + [at])[i] <= done[k])
    ensures forall i, k | 0 <= i < |keys + below| && 0 <= k < |done + [at]| :: !((keys + below)[i] <= (done + [at])[k])
  {
    var all := keys + [at];
    assert all[|keys|] == at;
    forall i, k | 0 <= i < |keys + below| && 0 <= k < |done + [at]| ensures !((keys + below)[i] <= (done + [at])[k]) {
      var key := (keys + below)[i];
      if i < |keys| {
        assert all[i] == key;
      } else {
        assert key in below && at <= key;
      }
    }
  }

  lemma ListingIsExact(t: Tree, done: seq<seq<string>>, out: seq<(string, Entry)>)
    requires t.WellFormed() && Listed(t, done, out) && Complete(t, [], done)
    requires forall i, j | 0 <= i < j < |done| :: done[i] != done[j]
    ensures forall k | 0 <= k < |out| :: Resolve(t, out[k].0) == Ok(out[k].1.node)
    ensures forall k | 0 <= k < |out| :: Listable(t, out[k])
    ensures forall i, j | 0 <= i < j < |out| :: out[i].1.node != out[j].1.node && out[i].0 != out[j].0
    ensures forall cs: seq<string>, n {:trigger Reachable(t, cs, n)} :: Reachable(t, cs, n) ==>
      (Join(cs), Entry(n, cs[|cs| - 1], t.KindOf(n))) in out
  {
    forall k | 0 <= k < |out|
      ensures Resolve(t, out[k].0) == Ok(out[k].1.node) && Components(out[k].0) == Ok(done[k])
      ensures Lists(t, out[k], done[k])
    {
      WalkLast(t, Root, done[k]);
      assert Names(t, done[k], out[k].1.node, out[k].0);
      JoinThenComponents(done[k]);
      ResolveIsWalk(t, Root, done[k]);
    }
    forall k | 0 <= k < |out| ensures Listable(t, out[k]) {
      assert Lists(t, out[k], done[k]);
    }
    forall i, j | 0 <= i < j < |out| ensures out[i].1.node != out[j].1.node && out[i].0 != out[j].0 {
      assert Names(t, done[i], out[i].1.node, out[i].0) && Names(t, done[j], out[j].1.node, out[j].0);
      assert Components(out[i].0) == Ok(done[i]) && Components(out[j].0) == Ok(done[j]);
      if out[i].1.node == out[j].1.node {
        PathUnique(t, done[i], done[j]);
      }
    }
    forall cs: seq<string>, n | Reachable(t, cs, n) ensures (Join(cs), Entry(n, cs[|cs| - 1], t.KindOf(n))) in out {
      assert cs in done;
      var k :| 0 <= k < |done| && done[k] == cs;
      assert Lists(t, out[k], done[k]) && out[k].1.node == n;
    }
  }

  /** `rest` leads from inside `current` to `node`, and every path of `node` ends that way. */
  ghost predicate Climbing(t: Tree, node: NodeId, current: NodeId, rest: seq<string>) {
    && AllValid(rest) && Walk(t, Under(current), rest) == Some(Under(node))
    && forall cs: seq<string> {:trigger Reachable(t, cs, node)} :: Reachable(t, cs, node) ==>
         && |cs| > |rest| && cs[|cs| - |rest|..] == rest
         && Walk(t, Root, cs[..|cs| - |rest|]) == Some(Under(current))
  }

  /** Climb to the top collecting names; give up at a bad name or a deleted ancestor. */
  method PathOf(doc: Doc, node: NodeId) returns (r: Option<string>)
    requires doc.Valid()
    ensures r.Some? <==> exists cs :: Reachable(doc.Tip(), cs, node)
    ensures forall cs: seq<string> {:trigger Reachable(doc.Tip(), cs, node)} :: Reachable(doc.Tip(), cs, node) ==>
      r == Some(Join(cs))
  {
    hide Walk, Climbing, Tree.WellFormed, Join;
    var t := doc.Tip();
    var current, rest := node, [];
    ghost var rank := RankOf(t);
    UnknownHasNoPath(t, node);
    if t.NameOf(node).None? {
      return None;
    }
    StartClimb(t, node);
    while true
      invariant current in t.nodes && Climbing(t, node, current, rest)
      decreases rank[current]
    {
      var name := t.NameOf(current);
      NoPath(t, node, current, rest);
      if name.None? || !ValidName(name.value) {
        return None;
      }
      match t.PlaceOf(current) {
        case Under(parent) =>
          RankFalls(t, rank, current);
          ClimbOn(t, node, current, rest, parent);
          current, rest := parent, [name.value] + rest;
        case Root =>
          ClimbDone(t, node, current, rest);
          rest := [name.value] + rest;
          assert Reachable(doc.Tip(), rest, node);
          return Some(Join(rest));
        case Trash =>
          return None;
      }
    }
  }

  lemma UnknownHasNoPath(t: Tree, node: NodeId)
    requires t.WellFormed()
    ensures t.NameOf(node).None? ==> forall cs :: !Reachable(t, cs, node)
  {
    hide Tree.WellFormed;
    forall cs | Reachable(t, cs, node) ensures t.NameOf(node).Some? {
      WalkLast(t, Root, cs);
    }
  }

  lemma StartClimb(t: Tree, node: NodeId)
    ensures Climbing(t, node, node, [])
  {
    forall cs: seq<string> ensures cs[|cs|..] == [] && cs[..|cs|] == cs {
    }
  }

  /** The last name on any path of `node` above `rest` is `current`'s own. */
  lemma NameOnPath(t: Tree, node: NodeId, current: NodeId, rest: seq<string>, cs: seq<string>)
    requires t.WellFormed() && current in t.nodes && Climbing(t, node, current, rest) && Reachable(t, cs, node)
    ensures var k := |cs| - |rest| - 1;
      && k >= 0 && cs[k + 1..] == rest && ValidName(cs[k]) && t.NameOf(current) == Some(cs[k])
      && t.PlaceOf(current) != Trash && Walk(t, Root, cs[..k]) == Some(t.PlaceOf(current))
  {
    var k := |cs| - |rest| - 1;
    WalkLast(t, Root, cs[..k + 1]);
    assert cs[..k + 1][..k] == cs[..k];
    assert cs[k] in cs;
  }

  lemma NoPath(t: Tree, node: NodeId, current: NodeId, rest: seq<string>)
    requires t.WellFormed() && current in t.nodes && Climbing(t, node, current, rest)
    ensures (t.NameOf(current).None? || !ValidName(t.NameOf(current).value) || t.PlaceOf(current) == Trash) ==>
      forall cs :: !Reachable(t, cs, node)
  {
    hide Walk, Climbing;
    forall cs | Reachable(t, cs, node)
      ensures t.NameOf(current).Some? && ValidName(t.NameOf(current).value) && t.PlaceOf(current) != Trash
    {
      NameOnPath(t, node, current, rest, cs);
    }
  }

  lemma LongerRest(t: Tree, node: NodeId, current: NodeId, rest: seq<string>, cs: seq<string>)
    requires t.WellFormed() && current in t.nodes && Climbing(t, node, current, rest) && Reachable(t, cs, node)
    ensures t.NameOf(current).Some?
    ensures var longer := [t.NameOf(current).value] + rest;
      && |cs| >= |longer| && cs[|cs| - |longer|..] == longer
      && Walk(t, Root, cs[..|cs| - |longer|]) == Some(t.PlaceOf(current))
      && (t.PlaceOf(current) != Root ==> |cs| > |longer|)
  {
    hide Climbing, Reachable;
    NameOnPath(t, node, current, rest, cs);
    var k := |cs| - |rest| - 1;
    assert cs[k..] == [cs[k]] + cs[k + 1..];
    assert k == 0 ==> cs[..k] == [];
  }

  /** From the parent, the name leads into `current` and `rest` on to `node`. */
  lemma StepDown(t: Tree, node: NodeId, current: NodeId, rest: seq<string>)
    requires t.WellFormed() && current in t.nodes && t.PlaceOf(current) != Trash
    requires t.NameOf(current).Some? && Walk(t, Under(current), rest) == Some(Under(node))
    ensures Walk(t, t.PlaceOf(current), [t.NameOf(current).value] + rest) == Some(Under(node))
  {
    SlotHolds(t, t.PlaceOf(current), t.NameOf(current).value);
    assert ([t.NameOf(current).value] + rest)[1..] == rest;
  }

  lemma ClimbOn(t: Tree, node: NodeId, current: NodeId, rest: seq<string>, parent: NodeId)
    requires t.WellFormed() && current in t.nodes && Climbing(t, node, current, rest)
    requires t.NameOf(current).Some? && ValidName(t.NameOf(current).value) && t.PlaceOf(current) == Under(parent)
    ensures parent in t.nodes && Climbing(t, node, parent, [t.NameOf(current).value] + rest)
  {
    hide Tree.WellFormed, Walk, ValidName, Reachable;
    var longer := [t.NameOf(current).value] + rest;
    assert forall c | c in longer :: c == longer[0] || c in rest;
    StepDown(t, node, current, rest);
    ParentInTree(t, current);
    forall cs: seq<string> | Reachable(t, cs, node)
      ensures |cs| > |longer| && cs[|cs| - |longer|..] == longer
      ensures Walk(t, Root, cs[..|cs| - |longer|]) == Some(Under(parent))
    {
      LongerRest(t, node, current, rest, cs);
    }
  }

  lemma ClimbDone(t: Tree, node: NodeId, current: NodeId, rest: seq<string>)
    requires t.WellFormed() && current in t.nodes && Climbing(t, node, current, rest)
    requires t.NameOf(current).Some? && ValidName(t.NameOf(current).value) && t.PlaceOf(current) == Root
    ensures Reachable(t, [t.NameOf(current).value] + rest, node)
    ensures forall cs :: Reachable(t, cs, node) ==> cs == [t.NameOf(current).value] + rest
  {
    var longer := [t.NameOf(current).value] + rest;
    StepDown(t, node, current, rest);
    forall cs | Reachable(t, cs, node) ensures cs == longer {
      PathUnique(t, cs, longer);
    }
  }
}
