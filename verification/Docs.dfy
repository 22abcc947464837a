/**
 The doc as the file layer uses it: the current tree, and every earlier tree
 under the frontier that names it. Local edits and imports only ever append.
 */
module Docs {
  import opened Wrappers
  import opened SharedText
  import opened FileTree
  import opened TreeEdits

  type Frontier = nat

  // ---- histories ----

  function Last(h: seq<Tree>): Tree
    requires h != []
  {
    h[|h| - 1]
  }

  /** Texts known to `a` read in `b` as they did, at every frontier up to `f`. */
  ghost predicate Carries(a: Tree, b: Tree, f: Frontier) {
    forall n {:trigger CarriesNode(a, b, f, n)} :: CarriesNode(a, b, f, n)
  }

  ghost predicate CarriesNode(a: Tree, b: Tree, f: Frontier, n: NodeId) {
    n in a.nodes && a.nodes[n].content.Some? ==>
      && n in b.nodes && b.nodes[n].content.Some?
      && SamePast(a.nodes[n].content.value, b.nodes[n].content.value, f)
  }

  ghost predicate SamePast(a: Text, b: Text, f: Frontier) {
    forall g: nat | g <= f :: TextAt(b, g) == TextAt(a, g)
  }

  /** Nothing in the tree is stamped after `f`, and no id has reached `next`. */
  ghost predicate Stamped(t: Tree, f: Frontier, next: NodeId) {
    forall n | n in t.nodes :: n < next && (t.nodes[n].content.Some? ==> UpTo(t.nodes[n].content.value, f))
  }

  ghost predicate GoodHistory(h: seq<Tree>, next: NodeId) {
    && h != [] && Last(h).WellFormed()
    && (forall f: nat | f < |h| :: Stamped(h[f], f, next))
    && (forall f: nat | f < |h| :: Carries(h[f], Last(h), f))
  }

  lemma CarriesOn(a: Tree, b: Tree, c: Tree, f: Frontier, g: Frontier)
    requires Carries(a, b, f) && Carries(b, c, g) && f <= g
    ensures Carries(a, c, f)
  {
    forall n ensures CarriesNode(a, c, f, n) {
      assert CarriesNode(a, b, f, n) && CarriesNode(b, c, g, n);
    }
  }

  /** A history goes on with any tree that carries its texts. */
  lemma Append(h: seq<Tree>, next: NodeId, t: Tree, next': NodeId)
    requires GoodHistory(h, next) && next <= next' && t.WellFormed()
    requires Stamped(t, |h|, next') && Carries(Last(h), t, |h| - 1)
    ensures GoodHistory(h + [t], next')
  {
    hide Tree.WellFormed;
    var h' := h + [t];
    forall f: nat | f < |h'| ensures Carries(h'[f], t, f) && Stamped(h'[f], f, next') {
      if f < |h| {
        assert h'[f] == h[f] && Stamped(h[f], f, next);
        CarriesOn(h[f], Last(h), t, f, |h| - 1);
      } else {
        assert forall n :: CarriesNode(t, t, f, n);
      }
    }
  }

  ghost predicate SameTexts(a: Tree, b: Tree) {
    forall n {:trigger n in a.nodes} {:trigger n in b.nodes} ::
      (n in a.nodes <==> n in b.nodes) && (n in a.nodes ==> a.nodes[n].content == b.nodes[n].content)
  }

  lemma MovesSameTexts(t: Tree, n: NodeId, p: Place, name: string, gone: Option<NodeId>)
    requires n in t.nodes && (gone.Some? ==> gone.value in t.nodes)
    ensures var moved := t.Moved(n, p);
      SameTexts(t, moved) && (gone.Some? ==> SameTexts(t, moved.Deleted(gone.value)))
        && SameTexts(t, Replaced(t, n, p, name, gone))
  {
    hide Without;
  }

  /** Steps that only move nodes about carry every text on. */
  lemma AppendMoves(h: seq<Tree>, next: NodeId, more: seq<Tree>)
    requires GoodHistory(h, next) && more != [] && Last(more).WellFormed()
    requires forall t | t in more :: SameTexts(Last(h), t)
    ensures GoodHistory(h + more, next)
  {
    hide Tree.WellFormed;
    var h', last := h + more, |h| - 1;
    assert Last(h') == Last(more) && Last(more) in more;
    assert Stamped(h[last], last, next);
    forall f: nat | f < |h'| ensures Carries(h'[f], Last(h'), f) && Stamped(h'[f], f, next) {
      if f < |h| {
        assert h'[f] == h[f] && Stamped(h[f], f, next);
        forall n ensures CarriesNode(h[f], Last(h'), f, n) {
          assert CarriesNode(h[f], Last(h), f, n);
        }
      } else {
        assert h'[f] in more;
        forall n ensures CarriesNode(h'[f], Last(h'), f, n) {
        }
      }
    }
  }

  /** What a file node read at a frontier; nothing when it was no file there. */
  function ContentAt(h: seq<Tree>, n: NodeId, f: Frontier): Option<string> {
    if f < |h| && n in h[f].nodes && h[f].nodes[n].content.Some?
    then Some(Visible(h[f].nodes[n].content.value)) else None
  }

  /** What the history says about an earlier frontier, the live text still knows. */
  lemma PastInTip(h: seq<Tree>, next: NodeId, n: NodeId, f: Frontier)
    requires GoodHistory(h, next) && ContentAt(h, n, f).Some?
    ensures n in Last(h).nodes && Last(h).nodes[n].content.Some?
    ensures ContentAt(h, n, f) == Some(TextAt(Last(h).nodes[n].content.value, f))
  {
    assert Carries(h[f], Last(h), f) && Stamped(h[f], f, next);
    assert CarriesNode(h[f], Last(h), f, n);
    NowIsVisible(h[f].nodes[n].content.value, f);
    assert SamePast(h[f].nodes[n].content.value, Last(h).nodes[n].content.value, f);
  }

  /** Appending to a history changes no earlier frontier. */
  lemma PastStays(h: seq<Tree>, h': seq<Tree>, n: NodeId, f: Frontier)
    requires f < |h| && h <= h'
    ensures ContentAt(h', n, f) == ContentAt(h, n, f)
  {
    assert h'[f] == h[f];
  }

  lemma CreateCarries(h: seq<Tree>, next: NodeId, p: Place, name: string, kind: Kind)
    requires GoodHistory(h, next) && p != Trash && (p.Under? ==> Last(h).KindOf(p.parent) == Some(Dir))
    requires Last(h).ChildNamed(p, name) == None
    ensures next !in Last(h).nodes
    ensures GoodHistory(h + [Last(h).Create(next, p, name, kind, if kind == File then Some([]) else None)], next + 1)
  {
    hide Tree.WellFormed;
    var last, content := |h| - 1, if kind == File then Some([]) else None;
    assert Stamped(h[last], last, next);
    var t := Last(h).Create(next, p, name, kind, content);
    CreateWellFormed(Last(h), next, p, name, kind, content);
    forall n ensures CarriesNode(Last(h), t, last, n) {
    }
    Append(h, next, t, next + 1);
  }

  // ---- text edits ----

  /**
   The history `h` became `h'` by merging `text`, diffed against frontier
   `base`, into node `n`. A text that did not change records nothing.
   */
  ghost predicate Edited(h: seq<Tree>, h': seq<Tree>, n: NodeId, text: string, base: Frontier) {
    && h != [] && base < |h| && n in Last(h).nodes && Last(h).nodes[n].content.Some?
    && var live := Last(h).nodes[n].content.value;
    && (TextAt(live, base) == text ==> h' == h)
    && exists script: seq<Edit>, out: Text ::
         && Patch(script, TextAt(live, base)) == Some(text) && Merged(live, base, script, |h|, out)
         && (if h' == h then out == live else h' == h + [Last(h).WithContent(n, out)])
  }

  lemma MergedUpTo(live: Text, base: Frontier, script: seq<Edit>, now: nat, out: Text)
    requires Merged(live, base, script, now, out) && UpTo(live, now)
    ensures UpTo(out, now)
  {
    MergedElems(live, base, script, now, out);
    forall e | e in out ensures e.born <= now && (e.died.Some? ==> e.died.value <= now) {
      if e !in live && e != Elem(e.ch, now, None) {
        var x :| x in live && AliveAt(x, base) && e == Kill(x, now);
      }
    }
  }

  lemma EditCarries(h: seq<Tree>, next: NodeId, n: NodeId, base: Frontier, script: seq<Edit>, out: Text)
    requires GoodHistory(h, next) && n in Last(h).nodes && Last(h).nodes[n].content.Some?
    requires Merged(Last(h).nodes[n].content.value, base, script, |h|, out)
    ensures GoodHistory(h + [Last(h).WithContent(n, out)], next)
  {
    hide Tree.WellFormed, Merged;
    var last, live := |h| - 1, Last(h).nodes[n].content.value;
    var t := Last(h).WithContent(n, out);
    assert Stamped(h[last], last, next);
    ContentWellFormed(Last(h), n, out);
    MergedUpTo(live, base, script, |h|, out);
    assert SamePast(live, out, last) by {
      forall g: nat | g <= last ensures TextAt(out, g) == TextAt(live, g) {
        MergeKeepsPast(live, base, script, |h|, out, g);
      }
    }
    forall x ensures CarriesNode(Last(h), t, last, x) {
    }
    Append(h, next, t, next);
  }

  /** Nothing has landed since the present frontier. */
  lemma NothingLanded(h: seq<Tree>, next: NodeId, n: NodeId)
    requires GoodHistory(h, next) && n in Last(h).nodes && Last(h).nodes[n].content.Some?
    ensures UpTo(Last(h).nodes[n].content.value, |h| - 1)
  {
    assert Stamped(Last(h), |h| - 1, next);
  }

  /** With nothing landed since, a text edit leaves the file reading exactly `text`. */
  lemma EditedExactly(h: seq<Tree>, h': seq<Tree>, next: NodeId, n: NodeId, text: string, base: Frontier)
    requires GoodHistory(h, next) && Edited(h, h', n, text, base)
    requires UpTo(Last(h).nodes[n].content.value, base)
    ensures h' != [] && n in Last(h').nodes && ContentAt(h', n, |h'| - 1) == Some(text)
    ensures forall x :: x in Last(h').nodes <==> x in Last(h).nodes
  {
    var live := Last(h).nodes[n].content.value;
    var script: seq<Edit>, out: Text :|
      && Patch(script, TextAt(live, base)) == Some(text) && Merged(live, base, script, |h|, out)
      && (if h' == h then out == live else h' == h + [Last(h).WithContent(n, out)]);
    MergeExact(live, base, script, |h|, out);
  }

  lemma ReadsExactly(h: seq<Tree>, h': seq<Tree>, next: NodeId, n: NodeId, text: string)
    requires GoodHistory(h, next) && Edited(h, h', n, text, |h| - 1)
    requires n in Last(h).nodes && Last(h).nodes[n].content.Some?
    ensures h' != [] && ContentAt(h', n, |h'| - 1) == Some(text)
  {
    NothingLanded(h, next, n);
    EditedExactly(h, h', next, n, text, |h| - 1);
  }

  /** A text edit touches one node's text and moves no path. */
  lemma EditedTip(h: seq<Tree>, h': seq<Tree>, next: NodeId, n: NodeId, text: string, base: Frontier)
    requires GoodHistory(h, next) && Edited(h, h', n, text, base)
    ensures h <= h' && SameBut(Last(h), Last(h'), n)
    ensures forall cs :: Walk(Last(h'), Root, cs) == Walk(Last(h), Root, cs)
  {
    var script: seq<Edit>, out: Text :|
      && Patch(script, TextAt(Last(h).nodes[n].content.value, base)) == Some(text)
      && Merged(Last(h).nodes[n].content.value, base, script, |h|, out)
      && (if h' == h then out == Last(h).nodes[n].content.value else h' == h + [Last(h).WithContent(n, out)]);
    forall cs ensures Walk(Last(h'), Root, cs) == Walk(Last(h), Root, cs) {
      ContentEffect(Last(h), n, out, cs);
    }
  }

  /** `u` is `t` but for the text of `n`. */
  ghost predicate SameBut(t: Tree, u: Tree, n: NodeId) {
    && u.nodes.Keys == t.nodes.Keys && n in t.nodes && u.nodes[n] == t.nodes[n].(content := u.nodes[n].content)
    && (t.nodes[n].content.Some? ==> u.nodes[n].content.Some?)
    && forall x | x in t.nodes && x != n :: u.nodes[x] == t.nodes[x]
  }

  lemma MovedHas(t: Tree, n: NodeId, p: Place)
    requires n in t.nodes
    ensures t.Moved(n, p).nodes.Keys == t.nodes.Keys
  {
  }

  class Doc {
    var history: seq<Tree>
    /** Ids from here on have never named a node. */
    var next: NodeId

    ghost predicate Valid()
      reads this
    {
      GoodHistory(history, next)
    }

    function Tip(): Tree
      requires history != []
      reads this
    {
      Last(history)
    }

    function Frontiers(): Frontier
      requires history != []
      reads this
    {
      |history| - 1
    }

    constructor ()
      ensures Valid() && history == [Tree(map[], [])] && next == 0
    {
      history := [Tree(map[], [])];
      next := 0;
      new;
      var rank: map<NodeId, nat> := map[];
      assert Tip().Ranked(rank);
    }

    /**
     Import a peer's updates: an arbitrary later tree, as long as ids keep
     meaning the same nodes and texts keep their past.
     */
    method ImportPeer(t: Tree, ids: NodeId)
      requires Valid() && t.WellFormed() && next <= ids
      requires Stamped(t, |history|, ids) && Carries(Tip(), t, |history| - 1)
      modifies this
      ensures Valid() && history == old(history) + [t] && next == ids
    {
      Append(history, next, t, ids);
      history, next := history + [t], ids;
    }

    method CreateNode(p: Place, name: string, kind: Kind) returns (n: NodeId)
      requires Valid() && p != Trash && (p.Under? ==> Tip().KindOf(p.parent) == Some(Dir))
      requires Tip().ChildNamed(p, name) == None
      modifies this
      ensures Valid() && n == old(next) && next == n + 1 && n !in old(Tip()).nodes
      ensures history == old(history) + [old(Tip()).Create(n, p, name, kind, if kind == File then Some([]) else None)]
    {
      n := next;
      CreateCarries(history, next, p, name, kind);
      history := history + [Tip().Create(n, p, name, kind, if kind == File then Some([]) else None)];
      next := n + 1;
    }

    /** Delete a node; its subtree goes with it. */
    method Delete(n: NodeId)
      requires Valid() && n in Tip().nodes
      modifies this`history
      ensures Valid() && history == old(history) + [old(Tip()).Deleted(n)]
    {
      DeleteWellFormed(Tip(), n);
      AppendMoves(history, next, [Tip().Deleted(n)]);
      history := history + [Tip().Deleted(n)];
    }

    /**
     The tree container's move. It refuses to put a node inside its own
     subtree, and then changes nothing.
     */
    method Mov(n: NodeId, p: Place) returns (ok: bool)
      requires Valid() && n in Tip().nodes && (p.Under? ==> p.parent in Tip().nodes)
      modifies this`history
      ensures ok <==> !Beneath(old(Tip()), n, p)
      ensures history == if ok then old(history) + [old(Tip()).Moved(n, p)] else old(history)
    {
      ghost var rank := RankOf(Tip());
      var at := p;
      while at.Under?
        invariant history == old(history)
        invariant at.Under? ==> at.parent in Tip().nodes
        invariant Beneath(Tip(), n, p) <==> Beneath(Tip(), n, at)
        decreases if at.Under? then rank[at.parent] + 1 else 0
      {
        BeneathStep(Tip(), n, at.parent);
        if at.parent == n {
          return false;
        }
        if Tip().nodes[at.parent].place.Under? {
          RankFalls(Tip(), rank, at.parent);
        }
        at := Tip().nodes[at.parent].place;
      }
      assert forall k: nat :: Climb(Tip(), at, k) == at;
      history := history + [Tip().Moved(n, p)];
      ok := true;
    }

    /**
     Move `n` to slot `name` of `p`, where only `gone` may be in the way: move,
     then delete what was displaced, then rename. A refused move changes nothing.
     */
    method MoveOver(n: NodeId, p: Place, name: string, gone: Option<NodeId>) returns (ok: bool)
      requires Valid() && n in Tip().nodes && (p.Under? ==> p.parent in Tip().nodes)
      requires gone.Some? ==> gone.value in Tip().nodes
      requires !Beneath(Tip(), n, p) ==> CanReplace(Tip(), n, p, name, gone)
      modifies this`history
      ensures Valid()
      ensures ok <==> !Beneath(old(Tip()), n, p)
      ensures if ok then Tip() == Replaced(old(Tip()), n, p, name, gone) else history == old(history)
    {
      hide Beneath, CanReplace, Tree.WellFormed, Tree.Moved, SameTexts, Stamped, Carries;
      ghost var t, h := Tip(), history;
      ok := Mov(n, p);
      if !ok {
        return;
      }
      MovedHas(t, n, p);
      MovesSameTexts(t, n, p, name, gone);
      ReplaceWellFormed(t, n, p, name, gone);
      ghost var more := [Tip()];
      if gone.Some? {
        history := history + [Tip().Deleted(gone.value)];
        more := more + [Tip()];
      }
      history := history + [Tip().Renamed(n, name)];
      more := more + [Tip()];
      assert history == h + more;
      AppendMoves(h, next, more);
    }

    /** The text library's update: diff `text` against frontier `base` and merge the script in. */
    method Update(n: NodeId, text: string, base: Frontier)
      requires Valid() && base < |history|
      requires n in Tip().nodes && Tip().nodes[n].content.Some?
      modifies this`history
      ensures Valid() && old(history) <= history && Edited(old(history), history, n, text, base)
    {
      hide Tree.WellFormed;
      var live := Tip().nodes[n].content.value;
      var was := TextAt(live, base);
      var script := Diff(was, text);
      DiffPatches(was, text);
      MergeMerges(live, base, script, |history|);
      var out := Merge(live, base, script, |history|);
      if was == text {
        KeepingIsNoOp(live, base, script, |history|);
      } else {
        EditCarries(history, next, n, base, script, out);
        history := history + [Tip().WithContent(n, out)];
      }
    }

    /**
     Set a file's text by diffing against frontier `base`. Refused when the
     node was no file there or `base` is not in the history.
     */
    method SetContentAt(n: NodeId, text: string, base: Frontier) returns (ok: bool)
      requires Valid()
      modifies this`history
      ensures Valid() && old(history) <= history
      ensures ok <==> ContentAt(old(history), n, base).Some?
      ensures if ok then Edited(old(history), history, n, text, base) else history == old(history)
    {
      if base >= |history| || n !in history[base].nodes || history[base].nodes[n].content.None? {
        return false;
      }
      PastInTip(history, next, n, base);
      Update(n, text, base);
      ok := true;
    }

    /** Set a file's text by diffing against the live text: it then reads exactly `text`. */
    method SetContent(n: NodeId, text: string) returns (ok: bool)
      requires Valid()
      modifies this`history
      ensures Valid() && old(history) <= history
      ensures ok <==> ContentAt(old(history), n, |old(history)| - 1).Some?
      ensures if ok then Edited(old(history), history, n, text, |old(history)| - 1) else history == old(history)
      ensures ok ==> ContentAt(history, n, |history| - 1) == Some(text)
    {
      if n !in Tip().nodes || Tip().nodes[n].content.None? {
        return false;
      }
      hide GoodHistory, Edited, UpTo;
      ghost var h := history;
      Update(n, text, |history| - 1);
      ReadsExactly(h, history, next, n, text);
      ok := true;
    }
  }
}
