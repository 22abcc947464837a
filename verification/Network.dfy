/**
 Any number of peers holding any number of sessions. A session is a pair of
 ends, each with a FIFO inbox; an end is driven either by the live driver or
 by the one-shot driver. Docs are shared by all ends of a peer, and an import
 that moves a doc nudges every open end of that peer.
 */
module Network {
  import opened Wrappers
  import opened CausalDoc
  import opened SyncProtocol

  datatype Role = Streaming(acked: Version) | Once(phase: Phase)

  datatype End = End(peer: nat, perms: Perms, role: Role, inbox: seq<Frame>, nudges: nat, open: bool)

  datatype Net = Net(docs: seq<DocState>, ends: seq<End>)

  /** Ends `2k` and `2k+1` are the two sides of one session. */
  function Mate(i: nat): nat {
    if i % 2 == 0 then i + 1 else i - 1
  }

  ghost predicate Shaped(s: Net) {
    && |s.ends| % 2 == 0
    && forall i | 0 <= i < |s.ends| :: s.ends[i].peer < |s.docs|
  }

  // ---- steps ----

  datatype Event =
    /** A peer writes operations of its own into its doc. */
    | Commit(peer: nat, ops: Version)
    /** Two peers connect; each opens with a version it has or had. */
    | Connect(p: nat, q: nat, permsP: Perms, permsQ: Perms, liveP: bool, liveQ: bool,
              haveP: Version, haveQ: Version)
    /** An end takes the oldest frame in its inbox. */
    | Deliver(i: nat)
    /** A live end acts on `taken` queued nudges at once (more than one when it lagged). */
    | Nudge(i: nat, taken: nat)
    /** An end's stream fails, or its process stops. */
    | Drop(i: nat)

  ghost predicate Enabled(s: Net, e: Event) {
    match e
    case Commit(p, ops) =>
      && p < |s.docs|
      && (forall o | o in ops :: o.author == p)
      && Builds(ops, s.docs[p].version + ops)
    case Connect(p, q, _, _, _, _, haveP, haveQ) =>
      && p < |s.docs| && q < |s.docs|
      && haveP <= s.docs[p].version && haveQ <= s.docs[q].version
    case Deliver(i) => i < |s.ends| && s.ends[i].open && s.ends[i].inbox != []
    case Nudge(i, taken) =>
      i < |s.ends| && s.ends[i].open && s.ends[i].role.Streaming? && 1 <= taken <= s.ends[i].nudges
    case Drop(i) => i < |s.ends| && s.ends[i].open
  }

  /** What one end does in a step: its new self, its doc, a frame, a nudge to all. */
  datatype Reaction = Reaction(end: End, doc: DocState, send: Option<Frame>, changed: bool, failed: Option<SyncError>)

  function OnFrame(e: End, doc: DocState): Reaction
    requires e.inbox != []
  {
    var rest := e.(inbox := e.inbox[1..]);
    match e.role
    case Streaming(acked) =>
      var (r, acked', doc') := LiveOn(e.perms, acked, doc, e.inbox[0]);
      if r.Ok? then Reaction(rest.(role := Streaming(acked')), doc', r.value.send, r.value.changed, None)
      else Reaction(rest.(role := Streaming(acked'), open := false), doc', None, false, Some(r.error))
    case Once(phase) =>
      var (r, phase', doc') := OneShotOn(e.perms, phase, doc, e.inbox[0]);
      match r
      case Ok(Send(m)) => Reaction(rest.(role := Once(phase')), doc', Some(m), false, None)
      case Ok(Done) => Reaction(rest.(role := Once(phase'), open := false), doc', None, false, None)
      case Err(error) => Reaction(rest.(role := Once(phase'), open := false), doc', None, false, Some(error))
  }

  function OnNudge(e: End, doc: DocState, taken: nat): Reaction
    requires e.role.Streaming? && taken <= e.nudges
  {
    var (send, acked') := LivePending(e.perms, e.role.acked, doc);
    Reaction(e.(role := Streaming(acked'), nudges := e.nudges - taken), doc, send, false, None)
  }

  function Post(e: End, send: Option<Frame>): End {
    if send.Some? && e.open then e.(inbox := e.inbox + [send.value]) else e
  }

  function Alert(ends: seq<End>, peer: nat): seq<End> {
    seq(|ends|, i requires 0 <= i < |ends| =>
      if ends[i].open && ends[i].peer == peer then ends[i].(nudges := ends[i].nudges + 1) else ends[i])
  }

  ghost function React(s: Net, i: nat, r: Reaction): Net
    requires Shaped(s) && i < |s.ends|
  {
    var ends := s.ends[i := r.end][Mate(i) := Post(s.ends[Mate(i)], r.send)];
    Net(s.docs[s.ends[i].peer := r.doc], if r.changed then Alert(ends, s.ends[i].peer) else ends)
  }

  function Opening(peer: nat, perms: Perms, live: bool, have: Version): End {
    End(peer, perms, if live then Streaming({}) else Once(AwaitHave), [Have(Good(have))], 0, true)
  }

  ghost function Next(s: Net, e: Event): Net
    requires Shaped(s) && Enabled(s, e)
  {
    match e
    case Commit(p, ops) =>
      Net(s.docs[p := s.docs[p].(version := s.docs[p].version + ops)], Alert(s.ends, p))
    case Connect(p, q, permsP, permsQ, liveP, liveQ, haveP, haveQ) =>
      s.(ends := s.ends + [Opening(p, permsP, liveP, haveQ), Opening(q, permsQ, liveQ, haveP)])
    case Deliver(i) => React(s, i, OnFrame(s.ends[i], s.docs[s.ends[i].peer]))
    case Nudge(i, taken) => React(s, i, OnNudge(s.ends[i], s.docs[s.ends[i].peer], taken))
    case Drop(i) => s.(ends := s.ends[i := s.ends[i].(open := false)])
  }

  ghost function Init(peers: nat): Net {
    Net(seq(peers, _ => DocState({}, {})), [])
  }

  /** `t` is reached from `s` by the events `es`. */
  ghost predicate Runs(s: Net, es: seq<Event>, t: Net)
    decreases |es|
  {
    if es == [] then s == t
    else Shaped(s) && Enabled(s, es[0]) && Runs(Next(s, es[0]), es[1..], t)
  }

  /** A run can go on with any enabled event. */
  lemma {:induction false} RunsOn(s: Net, es: seq<Event>, t: Net, e: Event)
    requires Runs(s, es, t) && Shaped(t) && Enabled(t, e)
    ensures Runs(s, es + [e], Next(t, e))
    decreases |es|
  {
    if es == [] {
      assert (es + [e])[1..] == [];
    } else {
      RunsOn(Next(s, es[0]), es[1..], t, e);
      assert (es + [e])[1..] == es[1..] + [e];
    }
  }

  // ---- the invariant behind "no honest orphans" ----

  function OpsOf(m: Frame): Version {
    if m.Updates? && m.ops.Good? then m.ops.value else {}
  }

  function InboxOps(inbox: seq<Frame>): Version {
    if inbox == [] then {} else OpsOf(inbox[0]) + InboxOps(inbox[1..])
  }

  /** Each frame builds on the receiver's history plus the frames before it. */
  ghost predicate Covered(v: Version, inbox: seq<Frame>)
    decreases |inbox|
  {
    inbox == [] ||
    (Builds(OpsOf(inbox[0]), v + OpsOf(inbox[0])) && Covered(v + OpsOf(inbox[0]), inbox[1..]))
  }

  ghost predicate WellSent(m: Frame, sender: Version) {
    || (m.Have? && m.vv.Good? && m.vv.value <= sender)
    || (m.Updates? && m.ops.Good?)
  }

  /** Receiver `e` (doc at `v`) against sender `m` (doc at `w`). */
  ghost predicate EndInv(v: Version, w: Version, e: End, m: End) {
    e.open ==>
      && (forall k | 0 <= k < |e.inbox| :: WellSent(e.inbox[k], w))
      && (e.perms.push ==> Covered(v, e.inbox))
      && (e.perms.push && m.role.Streaming? ==> m.role.acked <= v + InboxOps(e.inbox))
      && (e.role.Once? ==> e.role.phase != Finished)
      && (e.role.Once? && e.role.phase == AwaitHave ==> e.inbox != [])
      && (e.role.Once? ==> forall k | 0 <= k < |e.inbox| ::
            e.inbox[k].Have? <==> k == 0 && e.role.phase == AwaitHave)
  }

  ghost predicate EndOk(s: Net, i: nat)
    requires Shaped(s) && i < |s.ends|
  {
    EndInv(s.docs[s.ends[i].peer].version, s.docs[s.ends[Mate(i)].peer].version,
           s.ends[i], s.ends[Mate(i)])
  }

  ghost predicate Inv(s: Net) {
    && Shaped(s)
    && (forall p | 0 <= p < |s.docs| :: s.docs[p].Clean())
    && (forall i | 0 <= i < |s.ends| :: EndOk(s, i))
  }

  lemma {:induction false} CoveredMonotone(v: Version, v': Version, inbox: seq<Frame>)
    requires Covered(v, inbox) && v <= v'
    ensures Covered(v', inbox)
    decreases |inbox|
  {
    if inbox != [] {
      CoveredMonotone(v + OpsOf(inbox[0]), v' + OpsOf(inbox[0]), inbox[1..]);
    }
  }

  lemma {:induction false} CoveredAppend(v: Version, inbox: seq<Frame>, m: Frame)
    requires Covered(v, inbox) && Builds(OpsOf(m), v + InboxOps(inbox) + OpsOf(m))
    ensures Covered(v, inbox + [m])
    decreases |inbox|
  {
    if inbox != [] {
      var v' := v + OpsOf(inbox[0]);
      assert v' + InboxOps(inbox[1..]) == v + InboxOps(inbox);
      CoveredAppend(v', inbox[1..], m);
      assert (inbox + [m])[1..] == inbox[1..] + [m];
    } else {
      assert v + InboxOps(inbox) + OpsOf(m) == v + OpsOf(m);
      assert ([m])[1..] == [];
    }
  }

  lemma {:induction false} InboxOpsAppend(inbox: seq<Frame>, m: Frame)
    ensures InboxOps(inbox + [m]) == InboxOps(inbox) + OpsOf(m)
    decreases |inbox|
  {
    if inbox != [] {
      assert (inbox + [m])[1..] == inbox[1..] + [m];
      InboxOpsAppend(inbox[1..], m);
    } else {
      assert ([m])[1..] == [];
    }
  }

  /** Docs only grow, so what held for a quiet end goes on holding. */
  lemma EndInvMonotone(v: Version, w: Version, v': Version, w': Version, e: End, m: End)
    requires EndInv(v, w, e, m) && v <= v' && w <= w'
    ensures EndInv(v', w', e, m)
  {
    if e.open && e.perms.push {
      CoveredMonotone(v, v', e.inbox);
    }
  }

  /** What an end may post: the gap from something its mate will have, up to its doc. */
  ghost predicate Bridges(v: Version, w: Version, e: End, m: End, send: Option<Frame>) {
    send.Some? ==>
      && send.value.Updates? && send.value.ops.Good?
      && (e.open && e.perms.push ==> Builds(OpsOf(send.value), v + InboxOps(e.inbox) + OpsOf(send.value)))
  }

  /** Receiver `e` stays consistent when its mate becomes `m` and posts `send`. */
  lemma PostKeepsEndInv(v: Version, w: Version, e: End, m: End, m': End, send: Option<Frame>)
    requires EndInv(v, w, e, m) && Bridges(v, w, e, m', send)
    requires e.open && e.perms.push && m'.role.Streaming? ==>
      m'.role.acked <= v + InboxOps(e.inbox) + (if send.Some? then OpsOf(send.value) else {})
    ensures EndInv(v, w, Post(e, send), m')
  {
    if e.open && e.perms.push && send.Some? {
      CoveredAppend(v, e.inbox, send.value);
      InboxOpsAppend(e.inbox, send.value);
    }
  }

  /** `pending` sends exactly the gap, so the new mark is reached once it lands. */
  lemma PendingBridges(v: Version, e: End, m: End, acked: Version, perms: Perms, doc: DocState)
    requires doc.Clean()
    requires e.open && e.perms.push ==> acked <= v + InboxOps(e.inbox)
    ensures var (send, acked') := LivePending(perms, acked, doc);
      && Bridges(v, doc.version, e, m, send)
      && (e.open && e.perms.push ==>
            acked' <= v + InboxOps(e.inbox) + (if send.Some? then OpsOf(send.value) else {}))
      && (perms.pull ==> acked' == doc.version)
      && (!perms.pull ==> send == None)
  {
    var u := UpdatesSince(doc, acked);
    assert doc.version <= acked + u;
  }

  /** An end that takes a frame never fails, grows its doc, and stays in order. */
  lemma FrameStep(v: DocState, w: Version, e: End, m: End)
    requires EndInv(v.version, w, e, m) && e.open && e.inbox != [] && v.Clean()
    ensures var r := OnFrame(e, v);
      && r.failed == None
      && r.doc == DocState(v.version + (if e.perms.push then OpsOf(e.inbox[0]) else {}), {})
      && r.doc.Clean()
      && r.end.peer == e.peer && r.end.perms == e.perms && r.end.role.Streaming? == e.role.Streaming?
      && EndInv(r.doc.version, w, r.end, m)
  {
    var head := e.inbox[0];
    assert WellSent(head, w);
    assert InboxOps(e.inbox) == OpsOf(head) + InboxOps(e.inbox[1..]);
    if head.Updates? {
      ImportWhole(v, head.ops.value);
    } else {
      assert v.version + OpsOf(head) == v.version;
    }
  }

  /** ... and what it posts in answer to a frame is covered at its mate. */
  lemma FramePost(v: DocState, w: Version, e: End, m: End)
    requires EndInv(v.version, w, e, m) && EndInv(w, v.version, m, e)
    requires e.open && e.inbox != [] && v.Clean()
    ensures var r := OnFrame(e, v);
      EndInv(w, r.doc.version, Post(m, r.send), r.end)
  {
    FrameStep(v, w, e, m);
    var r := OnFrame(e, v);
    var head := e.inbox[0];
    assert WellSent(head, w);
    EndInvMonotone(w, v.version, w, r.doc.version, m, e);
    if head.Have? {
      assert head.vv.value <= w;
      PendingBridges(w, m, r.end, head.vv.value, e.perms, v);
      assert v.version <= head.vv.value + UpdatesSince(v, head.vv.value);
    }
    PostKeepsEndInv(w, r.doc.version, m, e, r.end, r.send);
  }

  /** An end not taking part in a step, in a state where docs have only grown. */
  lemma BystanderOk(s: Net, t: Net, k: nat)
    requires Shaped(s) && Shaped(t) && k < |s.ends| <= |t.ends| && |s.docs| == |t.docs| && EndOk(s, k)
    requires forall p | 0 <= p < |s.docs| :: s.docs[p].version <= t.docs[p].version
    requires t.ends[k] == s.ends[k].(nudges := t.ends[k].nudges)
    requires t.ends[Mate(k)] == s.ends[Mate(k)].(nudges := t.ends[Mate(k)].nudges)
    ensures EndOk(t, k)
  {
    EndInvMonotone(s.docs[s.ends[k].peer].version, s.docs[s.ends[Mate(k)].peer].version,
                   t.docs[s.ends[k].peer].version, t.docs[s.ends[Mate(k)].peer].version,
                   s.ends[k], s.ends[Mate(k)]);
  }

  /** An end does not look into its mate's inbox. */
  lemma SendDoesntMatter(v: Version, w: Version, e: End, m: End, send: Option<Frame>)
    ensures EndInv(v, w, e, Post(m, send)) == EndInv(v, w, e, m)
  {
  }

  lemma NudgesDontMatter(v: Version, w: Version, e: End, m: End, n: nat, k: nat)
    ensures EndInv(v, w, e.(nudges := n), m.(nudges := k)) == EndInv(v, w, e, m)
  {
  }

  /** A step of end `i` by which its session stays consistent. */
  ghost predicate Consistent(s: Net, i: nat, r: Reaction)
    requires Shaped(s) && i < |s.ends|
  {
    && r.doc.Clean() && s.docs[s.ends[i].peer].version <= r.doc.version
    && r.end.peer == s.ends[i].peer
    && var docs := s.docs[s.ends[i].peer := r.doc];
    && EndInv(r.doc.version, docs[s.ends[Mate(i)].peer].version, r.end, s.ends[Mate(i)])
    && EndInv(docs[s.ends[Mate(i)].peer].version, r.doc.version, Post(s.ends[Mate(i)], r.send), r.end)
  }

  lemma ReactMates(s: Net, i: nat, r: Reaction)
    requires Shaped(s) && i < |s.ends| && Consistent(s, i, r)
    ensures Shaped(React(s, i, r)) && EndOk(React(s, i, r), i) && EndOk(React(s, i, r), Mate(i))
  {
    hide EndInv, DocState.Clean;
    var t, mate := React(s, i, r), s.ends[Mate(i)];
    assert Mate(Mate(i)) == i;
    var v, w := r.doc.version, s.docs[s.ends[i].peer := r.doc][mate.peer].version;
    NudgesDontMatter(v, w, r.end, Post(mate, r.send), t.ends[i].nudges, t.ends[Mate(i)].nudges);
    SendDoesntMatter(v, w, r.end, mate, r.send);
    NudgesDontMatter(w, v, Post(mate, r.send), r.end, t.ends[Mate(i)].nudges, t.ends[i].nudges);
  }

  lemma ReactKeepsInv(s: Net, i: nat, r: Reaction)
    requires Inv(s) && i < |s.ends| && Consistent(s, i, r)
    ensures Inv(React(s, i, r))
  {
    hide EndInv, DocState.Clean;
    var t := React(s, i, r);
    ReactMates(s, i, r);
    forall k: nat | k < |t.ends| ensures EndOk(t, k) {
      if k != i && k != Mate(i) {
        assert Mate(k) != i && Mate(k) != Mate(i);
        BystanderOk(s, t, k);
      }
    }
  }

  lemma DeliverKeepsInv(s: Net, i: nat)
    requires Inv(s) && Enabled(s, Deliver(i))
    ensures Inv(Next(s, Deliver(i)))
  {
    var e, m := s.ends[i], s.ends[Mate(i)];
    assert Mate(Mate(i)) == i && EndOk(s, i) && EndOk(s, Mate(i));
    var v, w := s.docs[e.peer], s.docs[m.peer].version;
    var r := OnFrame(e, v);
    FrameStep(v, w, e, m);
    FramePost(v, w, e, m);
    var w' := s.docs[e.peer := r.doc][m.peer].version;
    EndInvMonotone(r.doc.version, w, r.doc.version, w', r.end, m);
    EndInvMonotone(w, r.doc.version, w', r.doc.version, Post(m, r.send), r.end);
    ReactKeepsInv(s, i, r);
  }

  lemma NudgeKeepsInv(s: Net, i: nat, taken: nat)
    requires Inv(s) && Enabled(s, Nudge(i, taken))
    ensures Inv(Next(s, Nudge(i, taken)))
  {
    var e, m := s.ends[i], s.ends[Mate(i)];
    assert Mate(Mate(i)) == i && EndOk(s, i) && EndOk(s, Mate(i));
    var v, w := s.docs[e.peer], s.docs[m.peer].version;
    var r := OnNudge(e, v, taken);
    PendingBridges(w, m, r.end, e.role.acked, e.perms, v);
    PostKeepsEndInv(w, v.version, m, e, r.end, r.send);
    assert s.docs[e.peer := r.doc] == s.docs;
    ReactKeepsInv(s, i, r);
  }

  lemma CommitKeepsInv(s: Net, p: nat, ops: set<Op>)
    requires Inv(s) && Enabled(s, Commit(p, ops))
    ensures Inv(Next(s, Commit(p, ops)))
  {
    hide EndInv;
    var t := Next(s, Commit(p, ops));
    forall k: nat | k < |t.ends| ensures EndOk(t, k) {
      BystanderOk(s, t, k);
    }
  }

  lemma DropKeepsInv(s: Net, i: nat)
    requires Inv(s) && Enabled(s, Drop(i))
    ensures Inv(Next(s, Drop(i)))
  {
    var t := Next(s, Drop(i));
    forall k: nat | k < |t.ends| ensures EndOk(t, k) {
      assert EndOk(s, k);
    }
  }

  lemma ConnectKeepsInv(s: Net, e: Event)
    requires Inv(s) && Enabled(s, e) && e.Connect?
    ensures Inv(Next(s, e))
  {
    var t := Next(s, e);
    forall k: nat | k < |t.ends| ensures EndOk(t, k) {
      if k < |s.ends| {
        BystanderOk(s, t, k);
      }
    }
  }

  lemma StepKeepsInv(s: Net, e: Event)
    requires Inv(s) && Enabled(s, e)
    ensures Inv(Next(s, e))
  {
    hide Inv, Next, Enabled;
    match e {
      case Deliver(i) => DeliverKeepsInv(s, i);
      case Nudge(i, taken) => NudgeKeepsInv(s, i, taken);
      case Commit(p, ops) => CommitKeepsInv(s, p, ops);
      case Connect(_, _, _, _, _, _, _, _) => ConnectKeepsInv(s, e);
      case Drop(i) => DropKeepsInv(s, i);
    }
  }

  lemma {:induction false} RunsKeepInv(s: Net, es: seq<Event>, t: Net)
    requires Inv(s) && Runs(s, es, t)
    ensures Inv(t)
    decreases |es|
  {
    if es != [] {
      StepKeepsInv(s, es[0]);
      RunsKeepInv(Next(s, es[0]), es[1..], t);
    }
  }

  /**
   The next delivery to end `i` does not fail, what is in flight to it builds
   on what it has, and its peer's mark claims no more than it has or will get.
   */
  ghost predicate OnTrack(s: Net, i: nat)
    requires Shaped(s) && i < |s.ends|
  {
    var e, mate := s.ends[i], s.ends[Mate(i)];
    && (e.inbox != [] ==> OnFrame(e, s.docs[e.peer]).failed == None)
    && (e.perms.push ==> Covered(s.docs[e.peer].version, e.inbox))
    && (e.perms.push && mate.role.Streaming? ==> mate.role.acked <= s.docs[e.peer].version + InboxOps(e.inbox))
  }

  /**
   In every state that peers can reach from empty docs, no delivery fails:
   never `Orphaned`, never `OutOfOrder`. A push-granting receiver applies every
   frame whole, and what its peer believes it has is what it has or will get.
   */
  lemma {:induction false} NoHonestOrphans(peers: nat, es: seq<Event>, s: Net)
    requires Runs(Init(peers), es, s)
    ensures Shaped(s)
    ensures forall i | 0 <= i < |s.ends| && s.ends[i].open :: OnTrack(s, i)
    ensures forall p | 0 <= p < |s.docs| :: s.docs[p].Clean()
  {
    RunsKeepInv(Init(peers), es, s);
    forall i: nat | i < |s.ends| && s.ends[i].open ensures OnTrack(s, i) {
      assert EndOk(s, i);
      if s.ends[i].inbox != [] {
        FrameStep(s.docs[s.ends[i].peer], s.docs[s.ends[Mate(i)].peer].version, s.ends[i], s.ends[Mate(i)]);
      }
    }
  }
}
