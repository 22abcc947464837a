/**
 The one-shot exchange over a pair of FIFO channels, with docs that are
 otherwise left alone: exact between two one-shot drivers, and stuck against a
 live host exactly when the host has nothing to send.
 */
module Exchange {
  import opened Wrappers
  import opened CausalDoc
  import opened SyncProtocol
  import opened Network
  import opened Convergence

  ghost function Start(a: DocState, b: DocState, pa: Perms, pb: Perms): Net {
    Net([a, b], [Opening(0, pa, false, b.version), Opening(1, pb, false, a.version)])
  }

  /** What a side granting `p` on doc `y` answers to a peer at `x`, once it has answered. */
  function Answer(p: Perms, y: DocState, x: DocState, answered: bool): seq<Frame> {
    if !answered then [] else [Updates(Good(if p.pull then y.version - x.version else {}))]
  }

  /** Where a side ends: united with its peer's start if both gates are open. */
  function Outcome(x: DocState, px: Perms, y: DocState, py: Perms): DocState {
    DocState(if py.pull && px.push then x.version + y.version else x.version, {})
  }

  /** One side (start doc `x`) against its peer (start doc `y`, past `AwaitHave` iff `answered`). */
  ghost predicate Side(e: End, d: DocState, x: DocState, px: Perms, y: DocState, py: Perms, answered: bool) {
    && e.role.Once? && e.perms == px
    && match e.role.phase
       case AwaitHave => e.open && d == x && e.inbox == [Have(Good(y.version))] + Answer(py, y, x, answered)
       case AwaitUpdates => e.open && d == x && e.inbox == Answer(py, y, x, answered)
       case Finished => !e.open && answered && d == Outcome(x, px, y, py) && e.inbox == []
  }

  ghost predicate Exchanging(s: Net, a: DocState, b: DocState, pa: Perms, pb: Perms) {
    && |s.docs| == 2 && |s.ends| == 2 && s.ends[0].peer == 0 && s.ends[1].peer == 1
    && s.ends[0].role.Once? && s.ends[1].role.Once?
    && Side(s.ends[0], s.docs[0], a, pa, b, pb, s.ends[1].role.phase != AwaitHave)
    && Side(s.ends[1], s.docs[1], b, pb, a, pa, s.ends[0].role.phase != AwaitHave)
  }

  function Remaining(phase: Phase): nat {
    match phase case AwaitHave => 2 case AwaitUpdates => 1 case Finished => 0
  }

  ghost function Left(s: Net): nat
    requires |s.ends| == 2 && s.ends[0].role.Once? && s.ends[1].role.Once?
  {
    Remaining(s.ends[0].role.phase) + Remaining(s.ends[1].role.phase)
  }

  /** A side that takes its next frame moves one phase on, without error. */
  lemma SideStep(e: End, x: DocState, px: Perms, y: DocState, py: Perms, answered: bool)
    requires Side(e, x, x, px, y, py, answered) && e.inbox != []
    requires x.Clean() && y.Clean()
    ensures var r := OnFrame(e, x);
      && r.failed == None && !r.changed && r.end.peer == e.peer
      && r.end.role.Once? && Remaining(r.end.role.phase) + 1 == Remaining(e.role.phase)
      && Side(r.end, r.doc, x, px, y, py, answered)
      && r.send == (if e.role.phase == AwaitHave then Some(Answer(px, x, y, true)[0]) else None)
      && (e.role.phase == AwaitHave ==> r.doc == x)
  {
    if e.role.phase == AwaitHave {
      assert e.inbox[1..] == Answer(py, y, x, answered);
      assert x.version - x.version == {};
    } else {
      var u := e.inbox[0].ops.value;
      ImportWhole(x, u);
      assert x.version + (y.version - x.version) == x.version + y.version;
      assert x.version + {} == x.version;
    }
  }

  lemma ExchangeStep(s: Net, i: nat, a: DocState, b: DocState, pa: Perms, pb: Perms)
    requires Exchanging(s, a, b, pa, pb) && a.Clean() && b.Clean()
    requires Enabled(s, Deliver(i))
    ensures Shaped(s)
    ensures OnFrame(s.ends[i], s.docs[i]).failed == None
    ensures Exchanging(Next(s, Deliver(i)), a, b, pa, pb)
    ensures Left(Next(s, Deliver(i))) + 1 == Left(s)
    ensures i < 2 && Next(s, Deliver(i)).ends[1 - i].role == s.ends[1 - i].role
  {
    var t := Next(s, Deliver(i));
    if i == 0 {
      SideStep(s.ends[0], a, pa, b, pb, s.ends[1].role.phase != AwaitHave);
      assert t.ends[0] == OnFrame(s.ends[0], a).end;
    } else {
      SideStep(s.ends[1], b, pb, a, pa, s.ends[0].role.phase != AwaitHave);
      assert t.ends[1] == OnFrame(s.ends[1], b).end;
    }
  }

  lemma {:induction false} ExchangeRuns(s: Net, es: seq<Event>, t: Net, a: DocState, b: DocState, pa: Perms, pb: Perms)
    requires Exchanging(s, a, b, pa, pb) && a.Clean() && b.Clean()
    requires Runs(s, es, t) && forall e | e in es :: e.Deliver?
    ensures Exchanging(t, a, b, pa, pb) && Left(s) == Left(t) + |es|
    decreases |es|
  {
    if es != [] {
      assert es[0] in es;
      ExchangeStep(s, es[0].i, a, b, pa, pb);
      ExchangeRuns(Next(s, es[0]), es[1..], t, a, b, pa, pb);
    }
  }

  /**
   Every interleaving of two one-shot drivers takes exactly four deliveries, none
   of which fails, and can always go on until then. Each side ends with its own
   start, united with its peer's start exactly when the peer grants pull and it
   grants push.
   */
  lemma OneShotIsExact(a: DocState, b: DocState, pa: Perms, pb: Perms, es: seq<Event>, t: Net)
    requires a.Clean() && b.Clean()
    requires Runs(Start(a, b, pa, pb), es, t) && forall e | e in es :: e.Deliver?
    ensures |es| <= 4 && |t.ends| == 2 && |t.docs| == 2
    ensures |es| < 4 <==> exists i: nat :: Enabled(t, Deliver(i))
    ensures forall i: nat :: Enabled(t, Deliver(i)) ==> OnFrame(t.ends[i], t.docs[i]).failed == None
    ensures |es| == 4 ==>
      && t.ends[0].role == Once(Finished) && t.ends[1].role == Once(Finished)
      && t.docs == [Outcome(a, pa, b, pb), Outcome(b, pb, a, pa)]
      && (t.docs[0].version == a.version + b.version <==> (pb.pull && pa.push) || b.version <= a.version)
  {
    hide Side, Next, OnFrame;
    ExchangeStarts(a, b, pa, pb);
    ExchangeRuns(Start(a, b, pa, pb), es, t, a, b, pa, pb);
    forall i: nat | Enabled(t, Deliver(i)) ensures OnFrame(t.ends[i], t.docs[i]).failed == None {
      ExchangeStep(t, i, a, b, pa, pb);
    }
    ExchangeGoesOn(t, a, b, pa, pb);
  }

  /** When the exchange leaves both sides with everything: each direction is open, or has nothing to bring. */
  lemma BothHoldTheUnion(a: DocState, b: DocState, pa: Perms, pb: Perms, es: seq<Event>, t: Net)
    requires a.Clean() && b.Clean() && |es| == 4
    requires Runs(Start(a, b, pa, pb), es, t) && forall e | e in es :: e.Deliver?
    ensures |t.docs| == 2
    ensures t.docs[0].version == t.docs[1].version == a.version + b.version <==>
      ((pb.pull && pa.push) || b.version <= a.version) && ((pa.pull && pb.push) || a.version <= b.version)
  {
    hide Start, Runs;
    OneShotIsExact(a, b, pa, pb, es, t);
    assert t.docs[0] == Outcome(a, pa, b, pb) && t.docs[1] == Outcome(b, pb, a, pa);
    assert b.version + a.version == a.version + b.version;
  }

  /** One side is done a delivery before the other: `Done` says nothing about the peer. */
  lemma DoneBeforeThePeer(a: DocState, b: DocState, pa: Perms, pb: Perms) returns (es: seq<Event>, t: Net)
    requires a.Clean() && b.Clean()
    ensures Runs(Start(a, b, pa, pb), es, t) && |es| == 3 && forall e | e in es :: e.Deliver?
    ensures |t.ends| == 2 && t.ends[0].role == Once(Finished) && t.ends[1].role == Once(AwaitUpdates)
    ensures |t.docs| == 2 && t.docs[1] == b
  {
    hide Next, Enabled;
    var s := Start(a, b, pa, pb);
    ExchangeStarts(a, b, pa, pb);
    assert Runs(s, [], s);
    AfterOne(s, [], s, 0, a, b, pa, pb);
    assert [] + [Deliver(0)] == [Deliver(0)];
    var s1 := Next(s, Deliver(0));
    AfterOne(s, [Deliver(0)], s1, 1, a, b, pa, pb);
    var s2 := Next(s1, Deliver(1));
    AfterOne(s, [Deliver(0), Deliver(1)], s2, 0, a, b, pa, pb);
    es, t := [Deliver(0), Deliver(1), Deliver(0)], Next(s2, Deliver(0));
  }

  lemma AfterOne(s: Net, es: seq<Event>, t: Net, i: nat, a: DocState, b: DocState, pa: Perms, pb: Perms)
    requires Runs(s, es, t) && Exchanging(t, a, b, pa, pb) && a.Clean() && b.Clean() && i < 2
    requires t.ends[i].role.phase == AwaitHave
      || (t.ends[i].role.phase == AwaitUpdates && t.ends[1 - i].role.phase != AwaitHave)
    ensures Shaped(t) && Enabled(t, Deliver(i)) && Runs(s, es + [Deliver(i)], Next(t, Deliver(i)))
    ensures Exchanging(Next(t, Deliver(i)), a, b, pa, pb)
    ensures Next(t, Deliver(i)).ends[1 - i].role == t.ends[1 - i].role
    ensures Remaining(Next(t, Deliver(i)).ends[i].role.phase) + 1 == Remaining(t.ends[i].role.phase)
  {
    ExchangeStep(t, i, a, b, pa, pb);
    RunsOn(s, es, t, Deliver(i));
  }

  lemma ExchangeStarts(a: DocState, b: DocState, pa: Perms, pb: Perms)
    ensures Exchanging(Start(a, b, pa, pb), a, b, pa, pb) && Left(Start(a, b, pa, pb)) == 4
  {
  }

  /** While phases are left there is a frame to deliver; after the last both sides are done. */
  lemma ExchangeGoesOn(t: Net, a: DocState, b: DocState, pa: Perms, pb: Perms)
    requires Exchanging(t, a, b, pa, pb)
    ensures Left(t) > 0 <==> exists i: nat :: Enabled(t, Deliver(i))
    ensures Left(t) == 0 ==>
      && t.ends[0].role == Once(Finished) && t.ends[1].role == Once(Finished)
      && t.docs == [Outcome(a, pa, b, pb), Outcome(b, pb, a, pa)]
  {
    if Left(t) > 0 {
      var k := if t.ends[0].inbox != [] then 0 else 1;
      assert t.ends[k].open && t.ends[k].inbox != [];
      assert Enabled(t, Deliver(k));
    }
  }

  // ---- a one-shot driver against a live host ----

  ghost function Visit(h: DocState, o: DocState, ph: Perms, po: Perms): Net {
    Net([h, o], [Opening(0, ph, true, o.version), Opening(1, po, false, h.version)])
  }

  ghost predicate AnyUpdates(inbox: seq<Frame>) {
    exists k :: 0 <= k < |inbox| && inbox[k].Updates?
  }

  /** The host answers the visitor's `Have` with updates. */
  predicate HostHasNews(h: DocState, o: DocState, ph: Perms) {
    ph.pull && h.version != o.version
  }

  /** The host's side of a visit; `waiting` while the guest's `Have` is unread. */
  ghost predicate Hosting(host: End, d: DocState, h: DocState, o: DocState, ph: Perms, waiting: bool) {
    && host.peer == 0 && host.role.Streaming? && host.open && host.perms == ph
    && (waiting ==> host.inbox != [] && host.inbox[0] == Have(Good(o.version)) && d == h && host.nudges == 0)
    && (!waiting ==> !HasHave(host.inbox))
    && (forall k | 1 <= k < |host.inbox| :: host.inbox[k].Updates?)
    && (ph.pull && h.version == o.version ==>
          && d.version == o.version && host.nudges == 0 && InboxOps(host.inbox) <= o.version
          && (!waiting ==> host.role.acked == o.version))
  }

  /** The guest's side; `answered` once the host has sent its updates. */
  ghost predicate Visiting(guest: End, d: DocState, h: DocState, o: DocState, ph: Perms, answered: bool) {
    && guest.peer == 1 && guest.role.Once?
    && (guest.open <==> guest.role.phase != Finished)
    && (answered ==> AnyUpdates(guest.inbox) || !guest.open)
    && (!answered ==> guest.open && !AnyUpdates(guest.inbox) && d.version == o.version)
  }

  ghost predicate Visited(s: Net, h: DocState, o: DocState, ph: Perms, waiting: bool) {
    && Inv(s) && |s.docs| == 2 && |s.ends| == 2
    && Hosting(s.ends[0], s.docs[0], h, o, ph, waiting)
    && Visiting(s.ends[1], s.docs[1], h, o, ph, HostHasNews(h, o, ph) && !waiting)
  }

  lemma GuestReceives(guest: End, d: DocState, h: DocState, o: DocState, ph: Perms, answered: bool, send: Option<Frame>)
    requires Visiting(guest, d, h, o, ph, answered)
    requires send.Some? ==> send.value.Updates?
    ensures Visiting(Post(guest, send), d, h, o, ph, answered || send.Some?)
  {
    if send.Some? {
      var longer := guest.inbox + [send.value];
      assert longer[|guest.inbox|].Updates?;
      assert forall k | 0 <= k < |guest.inbox| :: longer[k] == guest.inbox[k];
    }
  }

  lemma HostReceives(host: End, d: DocState, h: DocState, o: DocState, ph: Perms, waiting: bool, send: Option<Frame>)
    requires Hosting(host, d, h, o, ph, waiting)
    requires send.Some? ==>
      send.value.Updates? && (ph.pull && h.version == o.version ==> OpsOf(send.value) <= o.version)
    ensures Hosting(Post(host, send), d, h, o, ph, waiting)
  {
    if send.Some? {
      InboxOpsAppend(host.inbox, send.value);
      var longer := host.inbox + [send.value];
      assert forall k | 0 <= k < |host.inbox| :: longer[k] == host.inbox[k];
    }
  }

  lemma HostNudged(s: Net, taken: nat, h: DocState, o: DocState, ph: Perms, waiting: bool)
    requires Visited(s, h, o, ph, waiting) && Enabled(s, Nudge(0, taken))
    ensures Visited(Next(s, Nudge(0, taken)), h, o, ph, waiting)
  {
    StepKeepsInv(s, Nudge(0, taken));
    var r := OnNudge(s.ends[0], s.docs[0], taken);
    GuestReceives(s.ends[1], s.docs[1], h, o, ph, HostHasNews(h, o, ph), r.send);
  }

  lemma HostReads(s: Net, h: DocState, o: DocState, ph: Perms, waiting: bool)
    requires Visited(s, h, o, ph, waiting) && Enabled(s, Deliver(0))
    ensures Visited(Next(s, Deliver(0)), h, o, ph, false)
  {
    StepKeepsInv(s, Deliver(0));
    var host, guest := s.ends[0], s.ends[1];
    assert EndOk(s, 0);
    FrameStep(s.docs[0], s.docs[1].version, host, guest);
    var r := OnFrame(host, s.docs[0]);
    assert !HasHave(host.inbox[1..]);
    assert InboxOps(host.inbox) == OpsOf(host.inbox[0]) + InboxOps(host.inbox[1..]);
    if !waiting {
      assert !host.inbox[0].Have?;
    }
    if ph.pull && h.version == o.version {
      assert s.docs[0].version + OpsOf(host.inbox[0]) == s.docs[0].version;
    }
    GuestReceives(guest, s.docs[1], h, o, ph, HostHasNews(h, o, ph) && !waiting, r.send);
  }

  lemma GuestReads(s: Net, h: DocState, o: DocState, ph: Perms, waiting: bool)
    requires Visited(s, h, o, ph, waiting) && Enabled(s, Deliver(1))
    ensures Visited(Next(s, Deliver(1)), h, o, ph, waiting)
  {
    StepKeepsInv(s, Deliver(1));
    var host, guest := s.ends[0], s.ends[1];
    assert EndOk(s, 1);
    FrameStep(s.docs[1], s.docs[0].version, guest, host);
    var r := OnFrame(guest, s.docs[1]);
    HostReceives(host, s.docs[0], h, o, ph, waiting, r.send);
    assert forall k | 1 <= k < |guest.inbox| :: guest.inbox[1..][k - 1] == guest.inbox[k];
    if guest.inbox[0].Have? && AnyUpdates(guest.inbox) {
      var k :| 0 <= k < |guest.inbox| && guest.inbox[k].Updates?;
      assert guest.inbox[1..][k - 1].Updates?;
    }
  }

  lemma {:induction false} VisitRuns(s: Net, es: seq<Event>, t: Net, h: DocState, o: DocState, ph: Perms, waiting: bool)
    requires Visited(s, h, o, ph, waiting)
    requires Runs(s, es, t) && forall e | e in es :: e.Deliver? || e.Nudge?
    ensures Visited(t, h, o, ph, true) || Visited(t, h, o, ph, false)
    decreases |es|
  {
    if es != [] {
      assert es[0] in es;
      match es[0] {
        case Nudge(i, taken) =>
          HostNudged(s, taken, h, o, ph, waiting);
          VisitRuns(Next(s, es[0]), es[1..], t, h, o, ph, waiting);
        case Deliver(i) =>
          if i == 0 {
            HostReads(s, h, o, ph, waiting);
            VisitRuns(Next(s, es[0]), es[1..], t, h, o, ph, false);
          } else {
            GuestReads(s, h, o, ph, waiting);
            VisitRuns(Next(s, es[0]), es[1..], t, h, o, ph, waiting);
          }
      }
    }
  }

  /**
   A one-shot driver dialing a live host, both docs otherwise idle: where the
   exchange comes to rest the driver has finished exactly when the host grants
   pull and the two versions differed. Otherwise it waits for a reply that
   never comes.
   */
  lemma OneShotAgainstLiveHost(h: DocState, o: DocState, ph: Perms, po: Perms, es: seq<Event>, t: Net)
    requires h.Clean() && o.Clean()
    requires Runs(Visit(h, o, ph, po), es, t) && forall e | e in es :: e.Deliver? || e.Nudge?
    requires Quiet(t)
    ensures |t.ends| == 2 && t.ends[1].role.Once?
    ensures t.ends[1].role.phase == Finished <==> ph.pull && h.version != o.version
    ensures t.ends[1].role.phase != Finished ==> t.ends[1].role.phase == AwaitUpdates && t.ends[1].open
  {
    hide Inv, Next, Enabled, Covered, HasHave;
    VisitStarts(h, o, ph, po);
    VisitRuns(Visit(h, o, ph, po), es, t, h, o, ph, true);
    VisitEnds(t, h, o, ph, Visited(t, h, o, ph, true));
  }

  lemma VisitStarts(h: DocState, o: DocState, ph: Perms, po: Perms)
    requires h.Clean() && o.Clean()
    ensures Visited(Visit(h, o, ph, po), h, o, ph, true)
  {
    var s := Visit(h, o, ph, po);
    forall i: nat | i < |s.ends| ensures EndOk(s, i) {
      assert s.ends[i].inbox[1..] == [];
    }
    assert InboxOps(s.ends[0].inbox) == OpsOf(s.ends[0].inbox[0]) + InboxOps([]);
  }

  lemma VisitEnds(t: Net, h: DocState, o: DocState, ph: Perms, waiting: bool)
    requires Visited(t, h, o, ph, waiting) && Quiet(t)
    ensures t.ends[1].role.Once?
    ensures t.ends[1].role.phase == Finished <==> ph.pull && h.version != o.version
    ensures t.ends[1].role.phase != Finished ==> t.ends[1].role.phase == AwaitUpdates && t.ends[1].open
  {
    hide Covered, HasHave;
    assert EndOk(t, 1);
  }

  /** Two copies that are already equal: the visit always ends in that wait. */
  lemma SyncedVisitHangs(d: DocState, ph: Perms, po: Perms) returns (es: seq<Event>, t: Net)
    requires d.Clean()
    ensures Runs(Visit(d, d, ph, po), es, t) && Quiet(t)
    ensures |t.ends| == 2 && t.ends[1].role == Once(AwaitUpdates) && t.ends[1].open
  {
    var s := Visit(d, d, ph, po);
    VisitStarts(d, d, ph, po);
    es, t := ComesToRest(s, AllOps(s));
    OneShotAgainstLiveHost(d, d, ph, po, es, t);
  }

  // ---- a one-shot exchange beside a live session ----

  /**
   A one-shot import nudges nobody. Peer 0 holds a live session with peer 1 and
   fetches one operation from peer 2 in one shot; the network comes to rest with
   the live end of peer 0 behind, and peer 1 without the operation.
   */
  lemma OneShotLeavesMateBehind(o: Op) returns (es: seq<Event>, s: Net)
    requires o.author == 2 && o.deps == {}
    ensures Runs(Init(3), es, s) && Quiet(s) && |s.docs| == 3 && |s.ends| == 4
    ensures s.ends[0].peer == 0 && s.ends[0].open && s.ends[0].role.Streaming? && s.ends[0].perms == Perms(true, true)
    ensures s.ends[1].peer == 1 && s.ends[1].open && s.ends[1].role.Streaming? && s.ends[1].perms == Perms(true, true)
    ensures s.docs[0].version == {o} && s.docs[1].version == {} && Behind(Init(3), es, s, 0, false)
  {
    hide OnFrame, React, Runs;
    var s3;
    es, s3 := TwoSessionsOpen(o);
    var ends := s3.ends;
    LiveReadsHave(s3, 0);
    var s4 := Net(s3.docs, ends[0 := ends[0].(inbox := [])]);
    es := Then(Init(3), es, s3, Deliver(0), s4);
    LiveReadsHave(s4, 1);
    var s5 := Net(s3.docs, s4.ends[1 := ends[1].(inbox := [])]);
    es := Then(Init(3), es, s4, Deliver(1), s5);
    es, s := OneShotBeside(o, es, s5);
    AtRestDelivered(3, es, s, 0);
    assert o in s.docs[0].version && o !in s.docs[1].version;
  }

  lemma TwoSessionsOpen(o: Op) returns (es: seq<Event>, s: Net)
    requires o.author == 2 && o.deps == {}
    ensures Runs(Init(3), es, s) && |s.ends| == 4
    ensures s.docs == [DocState({}, {}), DocState({}, {}), DocState({o}, {})]
    ensures forall i | 0 <= i < 2 :: s.ends[i] == Opening(i, Perms(true, true), true, {})
    ensures s.ends[2] == Opening(0, Perms(true, true), false, {o})
      && s.ends[3] == Opening(2, Perms(true, true), false, {})
  {
    hide OnFrame, React, Runs, Opening;
    var all, none, one := Perms(true, true), DocState({}, {}), DocState({o}, {});
    var s0, s1 := Init(3), Net([none, none, one], []);
    assert s0.docs == [none, none, none] && {} + {o} == {o};
    NoEvents(s0);
    es := Then(s0, [], s0, Commit(2, {o}), s1);
    var s2 := Net(s1.docs, [Opening(0, all, true, {}), Opening(1, all, true, {})]);
    OpeningPeers(all, o);
    es := Then(s0, es, s1, Connect(0, 1, all, all, true, true, {}, {}), s2);
    s := Net(s1.docs, s2.ends + [Opening(0, all, false, {o}), Opening(2, all, false, {})]);
    es := Then(s0, es, s2, Connect(0, 2, all, all, false, false, {}, {o}), s);
  }

  lemma OpeningPeers(all: Perms, o: Op)
    ensures forall p, live, have :: Opening(p, all, live, have).peer == p
  {
  }

  lemma NoEvents(s: Net)
    ensures Runs(s, [], s)
  {
  }

  lemma Then(s0: Net, es: seq<Event>, s: Net, e: Event, t: Net) returns (more: seq<Event>)
    requires Runs(s0, es, s) && Shaped(s) && Enabled(s, e) && Next(s, e) == t
    ensures more == es + [e] && Runs(s0, more, t)
  {
    RunsOn(s0, es, s, e);
    more := es + [e];
  }

  /** A live end whose peer says it has what we have only takes the frame. */
  lemma LiveReadsHave(s: Net, i: nat)
    requires Shaped(s) && i < |s.ends| && s.ends[i].open && s.ends[i].role.Streaming?
    requires s.ends[i].inbox == [Have(Good(s.docs[s.ends[i].peer].version))]
    ensures Next(s, Deliver(i)) == Net(s.docs,
      s.ends[i := s.ends[i].(inbox := [], role := Streaming(s.docs[s.ends[i].peer].version))])
  {
    assert s.ends[i].inbox[1..] == [];
  }

  /** A one-shot end that takes a `Have` answers with what the peer lacks. */
  lemma OnceReadsHave(s: Net, i: nat, vv: Version)
    requires Shaped(s) && i < |s.ends| && s.ends[i].open && s.ends[i].role == Once(AwaitHave) && s.ends[i].perms.pull
    requires s.ends[i].inbox != [] && s.ends[i].inbox[0] == Have(Good(vv))
    ensures var e := s.ends[i];
      var answer: Frame := Updates(Good(UpdatesSince(s.docs[e.peer], vv)));
      Next(s, Deliver(i)) == Net(s.docs,
        s.ends[i := e.(inbox := e.inbox[1..], role := Once(AwaitUpdates))]
              [Mate(i) := Post(s.ends[Mate(i)], Some(answer))])
  {
    assert s.docs[s.ends[i].peer := s.docs[s.ends[i].peer]] == s.docs;
  }

  /** The four deliveries of the one-shot exchange, with the live session idle beside it. */
  lemma OneShotBeside(o: Op, before: seq<Event>, s: Net) returns (es: seq<Event>, t: Net)
    requires o.author == 2 && o.deps == {} && Runs(Init(3), before, s)
    requires s.docs == [DocState({}, {}), DocState({}, {}), DocState({o}, {})] && |s.ends| == 4
    requires s.ends[2] == Opening(0, Perms(true, true), false, {o})
      && s.ends[3] == Opening(2, Perms(true, true), false, {})
    requires forall i | 0 <= i < 2 ::
      s.ends[i].peer == i && s.ends[i].open && s.ends[i].inbox == [] && s.ends[i].nudges == 0
    ensures Runs(Init(3), es, t) && Quiet(t) && |t.docs| == 3 && |t.ends| == 4
    ensures t.ends[0] == s.ends[0] && t.ends[1] == s.ends[1]
    ensures t.docs[0].version == {o} && t.docs[1].version == {}
  {
    hide Runs, OnFrame, React, Opening;
    var one := DocState({o}, {});
    var a, b := s.ends[2], s.ends[3];
    var empty: Frame, full: Frame := Updates(Good({})), Updates(Good({o}));
    Fetches(o);
    OneShotOpenings(o);
    OnceReadsHave(s, 2, {o});
    var s1 := Net(s.docs, s.ends[2 := a.(inbox := [], role := Once(AwaitUpdates))][3 := Post(b, Some(empty))]);
    es := Then(Init(3), before, s, Deliver(2), s1);
    OnceReadsHave(s1, 3, {});
    var a', b' := a.(inbox := [full], role := Once(AwaitUpdates)), b.(inbox := [empty], role := Once(AwaitUpdates));
    assert s1.ends[2].inbox + [full] == [full] && s1.ends[3].inbox[1..] == [empty];
    var s2 := Net(s.docs, s1.ends[3 := b'][2 := a']);
    es := Then(Init(3), es, s1, Deliver(3), s2);
    es, t := UpdatesTaken(o, es, s2);
  }

  lemma OneShotOpenings(o: Op)
    ensures var a, b := Opening(0, Perms(true, true), false, {o}), Opening(2, Perms(true, true), false, {});
      && a.peer == 0 && a.role == Once(AwaitHave) && a.open && a.perms == Perms(true, true)
      && a.inbox == [Have(Good({o}))]
      && b.peer == 2 && b.role == Once(AwaitHave) && b.open && b.perms == Perms(true, true)
      && b.inbox == [Have(Good({}))]
      && a.inbox[1..] == []
  {
  }

  /** A one-shot end that takes updates imports them and is done; it nudges nobody. */
  lemma OnceReadsUpdates(s: Net, i: nat, u: Version)
    requires Shaped(s) && i < |s.ends| && s.ends[i].open && s.ends[i].role == Once(AwaitUpdates) && s.ends[i].perms.push
    requires s.ends[i].inbox == [Updates(Good(u))] && !Orphans(s.docs[s.ends[i].peer], u)
    ensures var e := s.ends[i];
      Next(s, Deliver(i)) == Net(s.docs[e.peer := Import(s.docs[e.peer], u)],
        s.ends[i := e.(inbox := [], role := Once(Finished), open := false)])
  {
    assert s.ends[i].inbox[1..] == [];
  }

  lemma UpdatesTaken(o: Op, before: seq<Event>, s: Net) returns (es: seq<Event>, t: Net)
    requires o.deps == {} && Runs(Init(3), before, s)
    requires s.docs == [DocState({}, {}), DocState({}, {}), DocState({o}, {})] && |s.ends| == 4
    requires forall i | 0 <= i < 2 :: s.ends[i].peer == i && s.ends[i].inbox == [] && s.ends[i].nudges == 0
    requires forall i | 2 <= i < 4 :: s.ends[i].open && s.ends[i].role == Once(AwaitUpdates) && s.ends[i].perms.push
    requires s.ends[2].peer == 0 && s.ends[2].inbox == [Updates(Good({o}))]
    requires s.ends[3].peer == 2 && s.ends[3].inbox == [Updates(Good({}))]
    ensures Runs(Init(3), es, t) && Quiet(t) && |t.docs| == 3 && |t.ends| == 4
    ensures t.ends[0] == s.ends[0] && t.ends[1] == s.ends[1]
    ensures t.docs[0].version == {o} && t.docs[1].version == {}
  {
    hide Runs, OnFrame, React, Import;
    Fetches(o);
    OnceReadsUpdates(s, 2, {o});
    var s3 := Net(s.docs[0 := DocState({o}, {})],
      s.ends[2 := s.ends[2].(inbox := [], role := Once(Finished), open := false)]);
    es := Then(Init(3), before, s, Deliver(2), s3);
    OnceReadsUpdates(s3, 3, {});
    t := Net(s3.docs, s3.ends[3 := s3.ends[3].(inbox := [], role := Once(Finished), open := false)]);
    assert s3.docs[2 := s3.docs[2]] == s3.docs;
    es := Then(Init(3), es, s3, Deliver(3), t);
  }

  lemma Fetches(o: Op)
    requires o.deps == {}
    ensures var none, one := DocState({}, {}), DocState({o}, {});
      && UpdatesSince(none, {o}) == {} && UpdatesSince(one, {}) == {o}
      && Import(none, {o}) == one && !Orphans(none, {o}) && Import(one, {}) == one && !Orphans(one, {})
  {
    var none, one := DocState({}, {}), DocState({o}, {});
    SettleIsLargestClosed({o});
    assert {} + {} + {o} == {o} && {o} + {} + {} == {o};
    assert {} - {o} == {} && {o} - {} == {o} && {o} - {o} == {};
  }
}
