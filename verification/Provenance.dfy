/**
 Gate containment: an operation reaches a peer only along sessions whose
 sending side grants pull and whose receiving side grants push.
 */
module Provenance {
  import opened CausalDoc
  import opened Network

  /** Some session ever opened lets content flow from `a` to `b`. */
  ghost predicate Edge(s: Net, a: nat, b: nat)
    requires Shaped(s)
  {
    exists i: nat | i < |s.ends| ::
      && s.ends[i].peer == a && s.ends[i].perms.pull
      && s.ends[Mate(i)].peer == b && s.ends[Mate(i)].perms.push
  }

  ghost predicate IsRoute(s: Net, route: seq<nat>)
    requires Shaped(s)
  {
    route != [] && forall k | 0 <= k < |route| - 1 :: Edge(s, route[k], route[k + 1])
  }

  ghost predicate Reach(s: Net, a: nat, b: nat)
    requires Shaped(s)
  {
    exists route: seq<nat> :: IsRoute(s, route) && route[0] == a && route[|route| - 1] == b
  }

  /** Every operation of `ops` was written by a peer that reaches `p`. */
  ghost predicate Sourced(s: Net, ops: Version, p: nat)
    requires Shaped(s)
  {
    forall o | o in ops :: Reach(s, o.author, p)
  }

  ghost predicate InboxSourced(s: Net, i: nat)
    requires Shaped(s) && i < |s.ends|
  {
    InboxOps(s.ends[i].inbox) != {} ==>
      s.ends[Mate(i)].perms.pull && Sourced(s, InboxOps(s.ends[i].inbox), s.ends[Mate(i)].peer)
  }

  ghost predicate Contained(s: Net) {
    && Inv(s)
    && (forall p | 0 <= p < |s.docs| :: Sourced(s, s.docs[p].version, p))
    && (forall i | 0 <= i < |s.ends| :: InboxSourced(s, i))
  }

  /** Sessions are never forgotten and never change who they join or what they grant. */
  ghost predicate Extends(s: Net, t: Net) {
    && Shaped(s) && Shaped(t) && |s.ends| <= |t.ends|
    && forall i | 0 <= i < |s.ends| :: t.ends[i].peer == s.ends[i].peer && t.ends[i].perms == s.ends[i].perms
  }

  lemma ReachExtends(s: Net, t: Net, a: nat, b: nat)
    requires Extends(s, t) && Reach(s, a, b)
    ensures Reach(t, a, b)
  {
    var route :| IsRoute(s, route) && route[0] == a && route[|route| - 1] == b;
    forall k | 0 <= k < |route| - 1 ensures Edge(t, route[k], route[k + 1]) {
      assert Edge(s, route[k], route[k + 1]);
      var i: nat :| i < |s.ends| && s.ends[i].peer == route[k] && s.ends[i].perms.pull
        && s.ends[Mate(i)].peer == route[k + 1] && s.ends[Mate(i)].perms.push;
      assert t.ends[i].peer == route[k] && t.ends[Mate(i)].peer == route[k + 1];
    }
    assert IsRoute(t, route);
  }

  lemma ReachStep(s: Net, a: nat, b: nat, c: nat)
    requires Shaped(s) && Reach(s, a, b) && Edge(s, b, c)
    ensures Reach(s, a, c)
  {
    var route :| IsRoute(s, route) && route[0] == a && route[|route| - 1] == b;
    var longer := route + [c];
    forall k | 0 <= k < |longer| - 1 ensures Edge(s, longer[k], longer[k + 1]) {
      if k < |route| - 1 {
        assert Edge(s, route[k], route[k + 1]);
      }
    }
    assert IsRoute(s, longer);
  }

  lemma SourcedExtends(s: Net, t: Net, ops: Version, p: nat)
    requires Extends(s, t) && Sourced(s, ops, p)
    ensures Sourced(t, ops, p)
  {
    forall o | o in ops ensures Reach(t, o.author, p) {
      ReachExtends(s, t, o.author, p);
    }
  }

  /** A step moves content only out of a doc whose end grants pull. */
  ghost predicate Gated(r: Reaction) {
    r.send.Some? && OpsOf(r.send.value) != {} ==>
      r.end.perms.pull && OpsOf(r.send.value) <= r.doc.version
  }

  lemma FrameGated(e: End, doc: DocState)
    requires e.inbox != []
    ensures Gated(OnFrame(e, doc))
  {
  }

  /** A step that grows the doc by its inbox at most, and only behind an open push gate. */
  ghost predicate TakesIn(s: Net, i: nat, r: Reaction)
    requires Shaped(s) && i < |s.ends|
  {
    var e := s.ends[i];
    && r.end.peer == e.peer && r.end.perms == e.perms
    && (r.end.inbox == e.inbox || (e.inbox != [] && r.end.inbox == e.inbox[1..]))
    && (e.perms.push ==> r.doc.version <= s.docs[e.peer].version + InboxOps(e.inbox))
    && (!e.perms.push ==> r.doc.version == s.docs[e.peer].version)
  }

  lemma {:induction false} ReactDocSourced(s: Net, i: nat, r: Reaction)
    requires Contained(s) && i < |s.ends| && TakesIn(s, i, r)
    ensures Extends(s, React(s, i, r)) && Sourced(React(s, i, r), r.doc.version, s.ends[i].peer)
  {
    hide EndInv, IsRoute, DocState.Clean;
    var t := React(s, i, r);
    var j, p := Mate(i), s.ends[i].peer;
    assert Mate(j) == i && InboxSourced(s, i);
    forall o | o in r.doc.version ensures Reach(t, o.author, p) {
      if o in s.docs[p].version {
        assert Sourced(s, s.docs[p].version, p);
      } else {
        assert Edge(s, s.ends[j].peer, p);
        ReachStep(s, o.author, s.ends[j].peer, p);
      }
      ReachExtends(s, t, o.author, p);
    }
  }

  lemma {:induction false} ReactInboxSourced(s: Net, i: nat, r: Reaction, k: nat)
    requires Contained(s) && i < |s.ends| && TakesIn(s, i, r) && Gated(r) && k < |s.ends|
    requires Extends(s, React(s, i, r)) && Sourced(React(s, i, r), r.doc.version, s.ends[i].peer)
    ensures InboxSourced(React(s, i, r), k)
  {
    hide EndInv, Reach, DocState.Clean;
    var t := React(s, i, r);
    assert Mate(Mate(i)) == i && InboxSourced(s, k);
    if InboxOps(s.ends[k].inbox) != {} {
      SourcedExtends(s, t, InboxOps(s.ends[k].inbox), s.ends[Mate(k)].peer);
    }
    if k == Mate(i) && r.send.Some? {
      InboxOpsAppend(s.ends[k].inbox, r.send.value);
    }
  }

  lemma {:induction false} ReactContained(s: Net, i: nat, r: Reaction)
    requires Contained(s) && i < |s.ends| && Inv(React(s, i, r)) && TakesIn(s, i, r) && Gated(r)
    ensures Contained(React(s, i, r))
  {
    hide EndInv, Reach, Gated, TakesIn, DocState.Clean;
    var t := React(s, i, r);
    ReactDocSourced(s, i, r);
    forall q | 0 <= q < |t.docs| ensures Sourced(t, t.docs[q].version, q) {
      if q != s.ends[i].peer {
        SourcedExtends(s, t, s.docs[q].version, q);
      }
    }
    forall k: nat | k < |t.ends| ensures InboxSourced(t, k) {
      ReactInboxSourced(s, i, r, k);
    }
  }

  lemma {:induction false} DeliverContained(s: Net, i: nat)
    requires Contained(s) && Enabled(s, Deliver(i))
    ensures Contained(Next(s, Deliver(i)))
  {
    var e, m := s.ends[i], s.ends[Mate(i)];
    StepKeepsInv(s, Deliver(i));
    assert EndOk(s, i);
    FrameStep(s.docs[e.peer], s.docs[m.peer].version, e, m);
    FrameGated(e, s.docs[e.peer]);
    ReactContained(s, i, OnFrame(e, s.docs[e.peer]));
  }

  lemma StepContained(s: Net, e: Event)
    requires Contained(s) && Enabled(s, e)
    ensures Contained(Next(s, e))
  {
    StepKeepsInv(s, e);
    var t := Next(s, e);
    if e.Deliver? {
      DeliverContained(s, e.i);
    } else if e.Nudge? {
      ReactContained(s, e.i, OnNudge(s.ends[e.i], s.docs[s.ends[e.i].peer], e.taken));
    } else {
      assert Extends(s, t);
      forall q: nat | q < |t.docs| ensures Sourced(t, t.docs[q].version, q) {
        SourcedExtends(s, t, s.docs[q].version, q);
        assert IsRoute(t, [q]);
        assert Reach(t, q, q);
      }
      forall k: nat | k < |t.ends| ensures InboxSourced(t, k) {
        if k < |s.ends| {
          assert InboxSourced(s, k);
          if InboxOps(s.ends[k].inbox) != {} {
            SourcedExtends(s, t, InboxOps(s.ends[k].inbox), s.ends[Mate(k)].peer);
          }
        } else {
          assert InboxOps(t.ends[k].inbox) == OpsOf(t.ends[k].inbox[0]) + InboxOps([]);
        }
      }
    }
  }

  lemma {:induction false} RunsContained(s: Net, es: seq<Event>, t: Net)
    requires Contained(s) && Runs(s, es, t)
    ensures Contained(t)
    decreases |es|
  {
    if es != [] {
      StepContained(s, es[0]);
      RunsContained(Next(s, es[0]), es[1..], t);
    }
  }

  /**
   Over every run, one-shot and live sessions mixed: a peer holds an operation
   written elsewhere only if a route of sessions leads from the writer to it on
   which each sender grants pull and each receiver grants push.
   */
  lemma GateContainment(peers: nat, es: seq<Event>, s: Net, p: nat, o: Op)
    requires Runs(Init(peers), es, s)
    requires p < |s.docs| && o in s.docs[p].version + s.docs[p].pending
    ensures Shaped(s) && Reach(s, o.author, p)
  {
    RunsContained(Init(peers), es, s);
    assert Sourced(s, s.docs[p].version, p);
  }
}
