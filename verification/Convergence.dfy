/**
 With no further commits or connections every run of the network stops, and
 where it stops each pull-and-push-granted direction has delivered everything,
 unless a one-shot import has moved a doc behind the back of a live session.
 */
module Convergence {
  import opened CausalDoc
  import opened SyncProtocol
  import opened Network

  // ---- what a live end fails to notice ----

  ghost predicate HasHave(inbox: seq<Frame>) {
    exists k :: 0 <= k < |inbox| && inbox[k].Have?
  }

  /** A delivery to `p` that moves its doc. */
  ghost predicate BringsIn(s: Net, e: Event, p: nat)
    requires Shaped(s) && Enabled(s, e)
  {
    && e.Deliver? && s.ends[e.i].peer == p
    && OnFrame(s.ends[e.i], s.docs[p]).doc.version != s.docs[p].version
  }

  /** The doc of `p` moves by a one-shot import, which nudges nobody. */
  ghost predicate Silent(s: Net, e: Event, p: nat)
    requires Shaped(s) && Enabled(s, e)
  {
    BringsIn(s, e, p) && s.ends[e.i].role.Once?
  }

  /** The doc of `p` is written to, or moves by a live import: its ends are nudged. */
  ghost predicate Announced(s: Net, e: Event, p: nat)
    requires Shaped(s) && Enabled(s, e)
  {
    (e.Commit? && e.peer == p) || (BringsIn(s, e, p) && s.ends[e.i].role.Streaming?)
  }

  /** End `k` measures its doc against its mark: on a nudge, or on its mate's `Have`. */
  ghost predicate Measures(s: Net, e: Event, k: nat)
    requires Enabled(s, e)
  {
    (e.Nudge? && e.i == k) || (e.Deliver? && e.i == k && s.ends[k].inbox[0].Have?)
  }

  ghost predicate StillBehind(s: Net, e: Event, k: nat, behind: bool)
    requires Shaped(s) && Enabled(s, e)
  {
    k < |s.ends| && !Measures(s, e, k) && (behind || Silent(s, e, s.ends[k].peer))
  }

  /** Whether, after a run, a one-shot import has moved the doc of end `k` since that end last measured. */
  ghost predicate Behind(s: Net, es: seq<Event>, t: Net, k: nat, behind: bool)
    requires Runs(s, es, t)
    decreases |es|
  {
    if es == [] then behind else Behind(Next(s, es[0]), es[1..], t, k, StillBehind(s, es[0], k, behind))
  }

  /** An end with no reason to measure again is short of its own doc exactly when it is behind. */
  ghost predicate Noticed(s: Net, k: nat, behind: bool)
    requires Shaped(s) && k < |s.ends|
  {
    var e, v := s.ends[k], s.docs[s.ends[k].peer].version;
    e.open && e.role.Streaming? && e.perms.pull ==>
      e.role.acked <= v && (e.nudges > 0 || HasHave(e.inbox) || (behind <==> e.role.acked != v))
  }

  lemma HaveSurvives(inbox: seq<Frame>, m: Frame)
    requires HasHave(inbox)
    ensures HasHave(inbox + [m])
    ensures !inbox[0].Have? ==> HasHave(inbox[1..])
  {
    var k :| 0 <= k < |inbox| && inbox[k].Have?;
    assert (inbox + [m])[k].Have?;
    if !inbox[0].Have? {
      assert inbox[1..][k - 1].Have?;
    }
  }

  /** What a delivery makes of the end that takes it, in an invariant state. */
  lemma TakenWhole(s: Net, i: nat)
    requires Inv(s) && Enabled(s, Deliver(i))
    ensures var e := s.ends[i];
      var r := OnFrame(e, s.docs[e.peer]);
      && r.failed.None? && s.docs[e.peer].version <= r.doc.version
      && r.end.peer == e.peer && r.end.perms == e.perms && r.end.role.Streaming? == e.role.Streaming?
      && (r.changed <==> e.role.Streaming? && r.doc.version != s.docs[e.peer].version)
  {
    hide Covered;
    var e := s.ends[i];
    assert EndOk(s, i);
    FrameStep(s.docs[e.peer], s.docs[s.ends[Mate(i)].peer].version, e, s.ends[Mate(i)]);
  }

  lemma TakerNoticed(s: Net, i: nat, behind: bool)
    requires Inv(s) && Enabled(s, Deliver(i)) && Noticed(s, i, behind)
    ensures Shaped(Next(s, Deliver(i))) && Noticed(Next(s, Deliver(i)), i, StillBehind(s, Deliver(i), i, behind))
  {
    hide EndOk, HasHave;
    TakenWhole(s, i);
    var e := s.ends[i];
    if HasHave(e.inbox) && !e.inbox[0].Have? {
      HaveSurvives(e.inbox, e.inbox[0]);
    }
  }

  lemma OtherNoticed(s: Net, i: nat, k: nat, behind: bool)
    requires Inv(s) && Enabled(s, Deliver(i)) && k < |s.ends| && k != i && Noticed(s, k, behind)
    ensures Shaped(Next(s, Deliver(i))) && Noticed(Next(s, Deliver(i)), k, StillBehind(s, Deliver(i), k, behind))
  {
    hide EndOk, HasHave, OnFrame;
    TakenWhole(s, i);
    var r := OnFrame(s.ends[i], s.docs[s.ends[i].peer]);
    if r.send.Some? && HasHave(s.ends[k].inbox) {
      HaveSurvives(s.ends[k].inbox, r.send.value);
    }
  }

  lemma StepNoticed(s: Net, e: Event, k: nat, behind: bool)
    requires Inv(s) && Enabled(s, e) && k < |s.ends| && Noticed(s, k, behind)
    ensures Shaped(Next(s, e)) && |s.ends| <= |Next(s, e).ends|
    ensures Noticed(Next(s, e), k, StillBehind(s, e, k, behind))
  {
    hide EndOk, HasHave, OnFrame, OnNudge;
    match e {
      case Deliver(i) =>
        if i == k {
          TakerNoticed(s, i, behind);
        } else {
          OtherNoticed(s, i, k, behind);
        }
      case Nudge(i, taken) => NudgeNoticed(s, i, taken, k, behind);
      case _ =>
    }
  }

  lemma NudgeNoticed(s: Net, i: nat, taken: nat, k: nat, behind: bool)
    requires Inv(s) && Enabled(s, Nudge(i, taken)) && k < |s.ends| && Noticed(s, k, behind)
    ensures Shaped(Next(s, Nudge(i, taken))) && |Next(s, Nudge(i, taken)).ends| == |s.ends|
    ensures Noticed(Next(s, Nudge(i, taken)), k, StillBehind(s, Nudge(i, taken), k, behind))
  {
    hide EndOk, HasHave;
    var r := OnNudge(s.ends[i], s.docs[s.ends[i].peer], taken);
    var m := s.ends[Mate(i)];
    if r.send.Some? && HasHave(m.inbox) {
      HaveSurvives(m.inbox, r.send.value);
    }
  }

  /** An end that has just connected still has its mate's `Have` to take. */
  lemma OpeningNoticed(s: Net, e: Event, k: nat, behind: bool)
    requires Inv(s) && Enabled(s, e) && |s.ends| <= k && Shaped(Next(s, e)) && k < |Next(s, e).ends|
    ensures Noticed(Next(s, e), k, behind)
  {
    hide EndInv;
    var t := Next(s, e);
    assert e.Connect? && t.ends[k].inbox[0].Have?;
  }

  lemma {:induction false} RunsNotice(s: Net, es: seq<Event>, t: Net, k: nat, behind: bool)
    requires Inv(s) && Runs(s, es, t) && (k < |s.ends| ==> Noticed(s, k, behind))
    ensures Inv(t) && (k < |t.ends| ==> Noticed(t, k, Behind(s, es, t, k, behind)))
    decreases |es|
  {
    hide EndOk, Noticed, StillBehind;
    if es != [] {
      StepKeepsInv(s, es[0]);
      var u := Next(s, es[0]);
      if k < |s.ends| {
        StepNoticed(s, es[0], k, behind);
      } else if k < |u.ends| {
        OpeningNoticed(s, es[0], k, StillBehind(s, es[0], k, behind));
      }
      RunsNotice(u, es[1..], t, k, StillBehind(s, es[0], k, behind));
    }
  }

  // ---- at rest ----

  /** No open end has a frame to take or a nudge to act on. */
  ghost predicate Quiet(s: Net) {
    forall i | 0 <= i < |s.ends| && s.ends[i].open ::
      s.ends[i].inbox == [] && (s.ends[i].role.Streaming? ==> s.ends[i].nudges == 0)
  }

  /** An open live end that grants pull. */
  ghost predicate Serves(s: Net, i: nat) {
    i < |s.ends| && s.ends[i].open && s.ends[i].role.Streaming? && s.ends[i].perms.pull
  }

  /** All that end `i` grants has reached its mate, if that takes it. */
  ghost predicate Delivered(s: Net, i: nat)
    requires Shaped(s) && i < |s.ends|
  {
    s.ends[Mate(i)].open && s.ends[Mate(i)].perms.push ==>
      s.docs[s.ends[i].peer].version <= s.docs[s.ends[Mate(i)].peer].version
  }

  lemma QuietDelivers(s: Net, i: nat, behind: bool)
    requires Inv(s) && Quiet(s) && Serves(s, i) && Noticed(s, i, behind)
    ensures s.ends[i].role.acked == s.docs[s.ends[i].peer].version <==> !behind
    ensures !behind ==> Delivered(s, i)
  {
    assert Mate(Mate(i)) == i;
    assert EndOk(s, Mate(i));
    assert !HasHave(s.ends[i].inbox);
  }

  /**
   Wherever any run comes to rest, a live end that grants pull has its mark at
   its own doc if and only if no one-shot import has moved that doc since the end
   last measured; and then its open mate that grants push has all of the doc.
   */
  lemma AtRestDelivered(peers: nat, es: seq<Event>, s: Net, i: nat)
    requires Runs(Init(peers), es, s) && Quiet(s) && Serves(s, i)
    ensures Shaped(s)
    ensures s.ends[i].role.acked == s.docs[s.ends[i].peer].version <==> !Behind(Init(peers), es, s, i, false)
    ensures !Behind(Init(peers), es, s, i, false) ==> Delivered(s, i)
  {
    RunsNotice(Init(peers), es, s, i, false);
    QuietDelivers(s, i, Behind(Init(peers), es, s, i, false));
  }

  /** Ends of open, fully granted live sessions, each leading on from the peer the last one led to. */
  ghost predicate Leads(s: Net, via: seq<nat>)
    requires Shaped(s)
  {
    && via != []
    && (forall k | 0 <= k < |via| :: Serves(s, via[k]) && Serves(s, Mate(via[k])))
    && (forall k | 0 <= k < |via| :: s.ends[via[k]].perms.push && s.ends[Mate(via[k])].perms.push)
    && (forall k | 0 <= k < |via| - 1 :: s.ends[Mate(via[k])].peer == s.ends[via[k + 1]].peer)
  }

  ghost function From(s: Net, via: seq<nat>): DocState
    requires Shaped(s) && Leads(s, via)
  {
    s.docs[s.ends[via[0]].peer]
  }

  ghost function To(s: Net, via: seq<nat>): DocState
    requires Shaped(s) && Leads(s, via)
  {
    s.docs[s.ends[Mate(via[|via| - 1])].peer]
  }

  lemma {:induction false} LinkedPeersAgree(s: Net, via: seq<nat>)
    requires Inv(s) && Leads(s, via)
    requires forall k | 0 <= k < |via| :: Delivered(s, via[k]) && Delivered(s, Mate(via[k]))
    ensures From(s, via) == To(s, via)
    decreases |via|
  {
    hide EndOk;
    var i := via[0];
    assert Mate(Mate(i)) == i && Serves(s, i) && Serves(s, Mate(i)) && Delivered(s, i) && Delivered(s, Mate(i));
    assert s.docs[s.ends[i].peer].Clean() && s.docs[s.ends[Mate(i)].peer].Clean();
    if |via| > 1 {
      LinkedPeersAgree(s, via[1..]);
    }
  }

  /**
   Convergence. Wherever any run comes to rest, peers linked by open, fully
   granted live sessions hold the same doc, if none of the ends that link them is
   behind a one-shot import.
   */
  lemma RestingPeersAgree(peers: nat, es: seq<Event>, s: Net, via: seq<nat>)
    requires Runs(Init(peers), es, s) && Quiet(s) && Shaped(s) && Leads(s, via)
    requires forall k | 0 <= k < |via| ::
      !Behind(Init(peers), es, s, via[k], false) && !Behind(Init(peers), es, s, Mate(via[k]), false)
    ensures From(s, via) == To(s, via)
  {
    RunsKeepInv(Init(peers), es, s);
    forall k | 0 <= k < |via| ensures Delivered(s, via[k]) && Delivered(s, Mate(via[k])) {
      AtRestDelivered(peers, es, s, via[k]);
      AtRestDelivered(peers, es, s, Mate(via[k]));
    }
    LinkedPeersAgree(s, via);
  }

  lemma StepKeepsEnds(s: Net, e: Event, i: nat)
    requires Inv(s) && Enabled(s, e) && i < |s.ends|
    ensures i < |Next(s, e).ends| && Next(s, e).ends[i].peer == s.ends[i].peer
    ensures Next(s, e).ends[i].role.Streaming? == s.ends[i].role.Streaming?
  {
    hide EndOk, OnFrame;
    if e.Deliver? {
      TakenWhole(s, e.i);
    }
  }

  lemma {:induction false} EndsPersist(s: Net, es: seq<Event>, t: Net, i: nat)
    requires Inv(s) && Runs(s, es, t) && i < |s.ends|
    ensures i < |t.ends| && t.ends[i].peer == s.ends[i].peer && t.ends[i].role.Streaming? == s.ends[i].role.Streaming?
    decreases |es|
  {
    hide EndOk, Next;
    if es != [] {
      StepKeepsInv(s, es[0]);
      StepKeepsEnds(s, es[0], i);
      EndsPersist(Next(s, es[0]), es[1..], t, i);
    }
  }

  /** In particular, an end whose peer never ran a one-shot exchange is never behind. */
  lemma {:induction false} LiveOnlyNotBehind(s: Net, es: seq<Event>, t: Net, k: nat)
    requires Inv(s) && Runs(s, es, t) && k < |t.ends|
    requires forall i | 0 <= i < |t.ends| && t.ends[i].peer == t.ends[k].peer :: t.ends[i].role.Streaming?
    ensures !Behind(s, es, t, k, false)
    decreases |es|
  {
    hide EndOk;
    if es != [] {
      StepKeepsInv(s, es[0]);
      if es[0].Deliver? {
        EndsPersist(s, es, t, es[0].i);
      }
      if k < |s.ends| {
        EndsPersist(s, es, t, k);
      }
      LiveOnlyNotBehind(Next(s, es[0]), es[1..], t, k);
    }
  }

  // ---- until the next change ----

  /** No one-shot import moves the doc of `p` during the run. */
  ghost predicate NoneSilent(s: Net, es: seq<Event>, t: Net, p: nat)
    requires Runs(s, es, t)
    decreases |es|
  {
    es == [] || (!Silent(s, es[0], p) && NoneSilent(Next(s, es[0]), es[1..], t, p))
  }

  /** End `k` will measure again, or is not behind. */
  ghost predicate Owed(s: Net, k: nat, behind: bool) {
    k < |s.ends| && (s.ends[k].open ==> s.ends[k].nudges > 0 || !behind)
  }

  lemma OwedStep(s: Net, e: Event, k: nat, behind: bool)
    requires Inv(s) && Enabled(s, e) && Owed(s, k, behind) && !Silent(s, e, s.ends[k].peer)
    ensures Owed(Next(s, e), k, StillBehind(s, e, k, behind)) && Next(s, e).ends[k].peer == s.ends[k].peer
  {
    hide EndInv;
    if e.Deliver? {
      TakenWhole(s, e.i);
    }
  }

  lemma {:induction false} OwedStays(s: Net, es: seq<Event>, t: Net, k: nat, behind: bool)
    requires Inv(s) && Runs(s, es, t) && Owed(s, k, behind) && NoneSilent(s, es, t, s.ends[k].peer)
    ensures Owed(t, k, Behind(s, es, t, k, behind))
    decreases |es|
  {
    hide EndOk, StillBehind;
    if es != [] {
      StepKeepsInv(s, es[0]);
      OwedStep(s, es[0], k, behind);
      OwedStays(Next(s, es[0]), es[1..], t, k, StillBehind(s, es[0], k, behind));
    }
  }

  lemma AnnouncedIsOwed(s: Net, e: Event, k: nat, behind: bool)
    requires Inv(s) && Enabled(s, e) && k < |s.ends| && Announced(s, e, s.ends[k].peer)
    ensures Owed(Next(s, e), k, behind) && Next(s, e).ends[k].peer == s.ends[k].peer
  {
    hide EndInv;
    if e.Deliver? {
      TakenWhole(s, e.i);
    }
  }

  /**
   What a one-shot import left behind, the next change makes good: once the peer
   writes to its doc or takes in a live import, and no one-shot import moves the
   doc after that, the end has delivered everything wherever the run comes to rest.
   */
  lemma NextChangeCatchesUp(peers: nat, es: seq<Event>, s: Net, e: Event, more: seq<Event>, t: Net, i: nat)
    requires Runs(Init(peers), es, s) && Shaped(s) && Enabled(s, e) && Runs(Next(s, e), more, t) && Quiet(t)
    requires i < |s.ends| && Announced(s, e, s.ends[i].peer) && NoneSilent(Next(s, e), more, t, s.ends[i].peer)
    requires Serves(t, i)
    ensures Shaped(t) && t.ends[i].role.acked == t.docs[t.ends[i].peer].version && Delivered(t, i)
  {
    var before := Behind(Init(peers), es, s, i, false);
    RunsNotice(Init(peers), es, s, i, false);
    StepKeepsInv(s, e);
    StepNoticed(s, e, i, before);
    var behind := StillBehind(s, e, i, before);
    AnnouncedIsOwed(s, e, i, behind);
    OwedStays(Next(s, e), more, t, i, behind);
    RunsNotice(Next(s, e), more, t, i, behind);
    QuietDelivers(t, i, Behind(Next(s, e), more, t, i, behind));
  }

  // ---- and runs do come to rest ----

  function Sum<T>(f: T -> nat, xs: seq<T>): nat {
    if xs == [] then 0 else f(xs[0]) + Sum(f, xs[1..])
  }

  lemma {:induction false} SumUpdate<T>(f: T -> nat, xs: seq<T>, i: nat, x: T)
    requires i < |xs|
    ensures Sum(f, xs[i := x]) + f(xs[i]) == Sum(f, xs) + f(x)
  {
    if i == 0 {
      assert xs[i := x][1..] == xs[1..];
    } else {
      assert xs[i := x][1..] == xs[1..][i - 1 := x];
      SumUpdate(f, xs[1..], i - 1, x);
    }
  }

  lemma {:induction false} SumSame<T>(f: T -> nat, xs: seq<T>, ys: seq<T>)
    requires |xs| == |ys| && forall i | 0 <= i < |xs| :: f(xs[i]) == f(ys[i])
    ensures Sum(f, xs) == Sum(f, ys)
  {
    if xs != [] {
      SumSame(f, xs[1..], ys[1..]);
    }
  }

  /** A `Have` can be answered with one `Updates`; an `Updates` is never answered. */
  function FrameWeight(m: Frame): nat {
    if m.Have? then 2 else 1
  }

  function EndOpen(e: End): nat { if e.open then 1 else 0 }
  function EndNudges(e: End): nat { if e.open then e.nudges else 0 }
  function EndFrames(e: End): nat { if e.open then Sum(FrameWeight, e.inbox) else 0 }

  /** How many of the operations in `all` a doc lacks. */
  function Lacks(all: Version): DocState -> nat {
    (d: DocState) => |all - d.version|
  }

  /** All operations there are, in docs and in flight. */
  ghost predicate Within(s: Net, all: Version) {
    && (forall p | 0 <= p < |s.docs| :: s.docs[p].version <= all)
    && (forall i | 0 <= i < |s.ends| :: InboxOps(s.ends[i].inbox) <= all)
  }

  datatype Measure = Measure(open: nat, missing: nat, nudges: nat, frames: nat) {
    ghost predicate Below(m: Measure) {
      || open < m.open
      || (open == m.open && missing < m.missing)
      || (open == m.open && missing == m.missing && nudges < m.nudges)
      || (open == m.open && missing == m.missing && nudges == m.nudges && frames < m.frames)
    }
  }

  ghost function Work(s: Net, all: Version): Measure {
    Measure(Sum(EndOpen, s.ends), Sum(Lacks(all), s.docs), Sum(EndNudges, s.ends), Sum(EndFrames, s.ends))
  }

  predicate Internal(e: Event) {
    e.Deliver? || e.Nudge? || e.Drop?
  }

  lemma {:induction false} WeightAppend(inbox: seq<Frame>, m: Frame)
    ensures Sum(FrameWeight, inbox + [m]) == Sum(FrameWeight, inbox) + FrameWeight(m)
    decreases |inbox|
  {
    if inbox != [] {
      assert (inbox + [m])[1..] == inbox[1..] + [m];
      WeightAppend(inbox[1..], m);
    } else {
      assert ([m])[1..] == [];
    }
  }

  lemma GrowthIsProgress(d: DocState, d': DocState, all: Version)
    requires d.version <= d'.version <= all
    ensures d.version != d'.version ==> |all - d'.version| < |all - d.version|
  {
    var gap := all - d.version;
    assert gap == (all - d'.version) + (d'.version - d.version);
    if d.version != d'.version {
      assert d'.version - d.version != {};
    }
  }

  /** The two ends of a session change, the rest of the network stands still. */
  lemma SumPair(f: End -> nat, ends: seq<End>, i: nat, a: End, b: End)
    requires |ends| % 2 == 0 && i < |ends|
    ensures Sum(f, ends[i := a][Mate(i) := b]) + f(ends[i]) + f(ends[Mate(i)]) == Sum(f, ends) + f(a) + f(b)
  {
    SumUpdate(f, ends, i, a);
    SumUpdate(f, ends[i := a], Mate(i), b);
  }

  /** How a step moves each sum; nudging everybody changes only the third. */
  lemma ReactSums(s: Net, i: nat, r: Reaction, all: Version)
    requires Shaped(s) && i < |s.ends| && s.ends[i].open
    ensures var t, m := React(s, i, r), s.ends[Mate(i)];
      && Sum(EndOpen, t.ends) + 1 == Sum(EndOpen, s.ends) + EndOpen(r.end)
      && Sum(Lacks(all), t.docs) + Lacks(all)(s.docs[s.ends[i].peer]) == Sum(Lacks(all), s.docs) + Lacks(all)(r.doc)
      && (!r.changed ==>
            Sum(EndNudges, t.ends) + s.ends[i].nudges == Sum(EndNudges, s.ends) + EndNudges(r.end))
      && (!r.changed ==>
            Sum(EndFrames, t.ends) + EndFrames(s.ends[i]) + EndFrames(m)
            == Sum(EndFrames, s.ends) + EndFrames(r.end) + EndFrames(Post(m, r.send)))
  {
    var t, m := React(s, i, r), s.ends[Mate(i)];
    var m' := Post(m, r.send);
    var ends := s.ends[i := r.end][Mate(i) := m'];
    SumPair(EndOpen, s.ends, i, r.end, m');
    SumPair(EndNudges, s.ends, i, r.end, m');
    SumPair(EndFrames, s.ends, i, r.end, m');
    SumUpdate(Lacks(all), s.docs, s.ends[i].peer, r.doc);
    if r.changed {
      SumSame(EndOpen, ends, t.ends);
    }
  }

  lemma ReactWithin(s: Net, i: nat, r: Reaction, all: Version)
    requires Shaped(s) && Within(s, all) && i < |s.ends|
    requires r.doc.version <= all && InboxOps(r.end.inbox) <= all
    requires r.send.Some? ==> OpsOf(r.send.value) <= all
    ensures Within(React(s, i, r), all)
  {
    var t := React(s, i, r);
    if r.send.Some? {
      InboxOpsAppend(s.ends[Mate(i)].inbox, r.send.value);
    }
    forall k | 0 <= k < |t.ends| ensures InboxOps(t.ends[k].inbox) <= all {
      assert InboxOps(s.ends[k].inbox) <= all;
    }
  }

  lemma ReactWorks(s: Net, i: nat, r: Reaction, all: Version)
    requires Shaped(s) && i < |s.ends| && s.ends[i].open
    requires s.docs[s.ends[i].peer].version <= r.doc.version <= all
    requires r.changed ==> r.doc.version != s.docs[s.ends[i].peer].version
    requires r.send.Some? ==> FrameWeight(r.send.value) == 1
    requires
      || !r.end.open
      || r.doc.version != s.docs[s.ends[i].peer].version
      || r.end.nudges < s.ends[i].nudges
      || (r.end.nudges == s.ends[i].nudges
          && Sum(FrameWeight, r.end.inbox) + (if r.send.Some? then 1 else 0) < Sum(FrameWeight, s.ends[i].inbox))
    ensures Work(React(s, i, r), all).Below(Work(s, all))
  {
    var m := s.ends[Mate(i)];
    ReactSums(s, i, r, all);
    GrowthIsProgress(s.docs[s.ends[i].peer], r.doc, all);
    if r.send.Some? {
      WeightAppend(m.inbox, r.send.value);
    }
  }

  lemma DeliverWorks(s: Net, i: nat, all: Version)
    requires Inv(s) && Within(s, all) && Enabled(s, Deliver(i)) && Inv(Next(s, Deliver(i)))
    ensures Within(Next(s, Deliver(i)), all) && Work(Next(s, Deliver(i)), all).Below(Work(s, all))
  {
    hide EndInv, Measure.Below;
    var d, m := s.ends[i], s.ends[Mate(i)];
    assert EndOk(s, i);
    FrameStep(s.docs[d.peer], s.docs[m.peer].version, d, m);
    assert Sum(FrameWeight, d.inbox) == FrameWeight(d.inbox[0]) + Sum(FrameWeight, d.inbox[1..]);
    assert InboxOps(d.inbox) == OpsOf(d.inbox[0]) + InboxOps(d.inbox[1..]);
    ReactWithin(s, i, OnFrame(d, s.docs[d.peer]), all);
    ReactWorks(s, i, OnFrame(d, s.docs[d.peer]), all);
  }

  lemma StepWorks(s: Net, e: Event, all: Version)
    requires Inv(s) && Within(s, all) && Internal(e) && Enabled(s, e)
    ensures Inv(Next(s, e)) && Within(Next(s, e), all)
    ensures Work(Next(s, e), all).Below(Work(s, all))
  {
    hide EndInv;
    StepKeepsInv(s, e);
    match e {
      case Deliver(i) => DeliverWorks(s, i, all);
      case Nudge(i, taken) =>
        ReactWithin(s, i, OnNudge(s.ends[i], s.docs[s.ends[i].peer], taken), all);
        ReactWorks(s, i, OnNudge(s.ends[i], s.docs[s.ends[i].peer], taken), all);
      case Drop(i) =>
        SumUpdate(EndOpen, s.ends, i, s.ends[i].(open := false));
      case _ =>
    }
  }

  ghost function AllOps(s: Net): Version {
    (set p, o | 0 <= p < |s.docs| && o in s.docs[p].version :: o) +
    (set i, o | 0 <= i < |s.ends| && o in InboxOps(s.ends[i].inbox) :: o)
  }

  /** An endless run in which nobody commits or connects. */
  ghost predicate Endless(run: nat -> Net, es: nat -> Event) {
    forall n: nat :: Internal(es(n)) && Shaped(run(n)) && Enabled(run(n), es(n)) && run(n + 1) == Next(run(n), es(n))
  }

  lemma {:induction false} NoDescent(run: nat -> Net, es: nat -> Event, n: nat, all: Version)
    requires Endless(run, es) && Inv(run(n)) && Within(run(n), all)
    ensures false
    decreases Work(run(n), all).open, Work(run(n), all).missing, Work(run(n), all).nudges, Work(run(n), all).frames
  {
    StepWorks(run(n), es(n), all);
    assert run(n + 1) == Next(run(n), es(n));
    NoDescent(run, es, n + 1, all);
  }

  /** The echo dies out: with no commits and no connections, every run stops. */
  lemma EchoDiesOut(peers: nat, before: seq<Event>, run: nat -> Net, es: nat -> Event)
    requires Runs(Init(peers), before, run(0))
    ensures !Endless(run, es)
  {
    RunsKeepInv(Init(peers), before, run(0));
    if Endless(run, es) {
      NoDescent(run, es, 0, AllOps(run(0)));
    }
  }

  lemma {:induction false} ComesToRest(s: Net, all: Version) returns (es: seq<Event>, t: Net)
    requires Inv(s) && Within(s, all)
    ensures Runs(s, es, t) && Quiet(t)
    ensures forall e | e in es :: e.Deliver? || e.Nudge?
    decreases Work(s, all).open, Work(s, all).missing, Work(s, all).nudges, Work(s, all).frames
  {
    if Quiet(s) {
      es, t := [], s;
    } else {
      var i :| 0 <= i < |s.ends| && s.ends[i].open
        && !(s.ends[i].inbox == [] && (s.ends[i].role.Streaming? ==> s.ends[i].nudges == 0));
      var e := if s.ends[i].inbox != [] then Deliver(i) else Nudge(i, 1);
      StepWorks(s, e, all);
      var rest;
      rest, t := ComesToRest(Next(s, e), all);
      es := [e] + rest;
      assert es[1..] == rest;
    }
  }

  /** Peer `p` has no one-shot exchange open. */
  ghost predicate AllLive(s: Net, p: nat) {
    forall i | 0 <= i < |s.ends| && s.ends[i].open && s.ends[i].peer == p :: s.ends[i].role.Streaming?
  }

  /** The same ends as before; live ones that were open still are. */
  ghost predicate SameSessions(s: Net, t: Net) {
    && |t.ends| == |s.ends| && |t.docs| == |s.docs|
    && forall i | 0 <= i < |s.ends| ::
         && t.ends[i].peer == s.ends[i].peer && t.ends[i].perms == s.ends[i].perms
         && t.ends[i].role.Streaming? == s.ends[i].role.Streaming?
         && (t.ends[i].open ==> s.ends[i].open)
         && (s.ends[i].open && s.ends[i].role.Streaming? ==> t.ends[i].open)
  }

  lemma StepKeepsSessions(s: Net, e: Event)
    requires Inv(s) && Enabled(s, e) && (e.Deliver? || e.Nudge?)
    ensures Shaped(Next(s, e)) && SameSessions(s, Next(s, e))
  {
    hide EndInv;
    StepKeepsInv(s, e);
    if e.Deliver? {
      TakenWhole(s, e.i);
    }
  }

  /** Deliveries and nudges keep live sessions open, with the same peers and grants. */
  lemma {:induction false} RunsKeepSessions(s: Net, es: seq<Event>, t: Net)
    requires Inv(s) && Runs(s, es, t) && forall e | e in es :: e.Deliver? || e.Nudge?
    ensures SameSessions(s, t)
    decreases |es|
  {
    hide Inv, Next, Enabled;
    if es != [] {
      assert es[0] in es;
      StepKeepsInv(s, es[0]);
      StepKeepsSessions(s, es[0]);
      RunsKeepSessions(Next(s, es[0]), es[1..], t);
    }
  }

  /** With no one-shot exchange open at its peer, an end does not fall behind. */
  lemma {:induction false} LiveNotBehind(s: Net, es: seq<Event>, t: Net, k: nat)
    requires Inv(s) && Runs(s, es, t) && forall e | e in es :: e.Deliver? || e.Nudge?
    requires k < |s.ends| && AllLive(s, s.ends[k].peer)
    ensures !Behind(s, es, t, k, false)
    decreases |es|
  {
    hide EndOk, Next;
    if es != [] {
      assert es[0] in es;
      StepKeepsInv(s, es[0]);
      StepKeepsSessions(s, es[0]);
      assert AllLive(Next(s, es[0]), s.ends[k].peer);
      LiveNotBehind(Next(s, es[0]), es[1..], t, k);
    }
  }

  lemma LeadsOn(s: Net, t: Net, via: seq<nat>)
    requires Shaped(s) && Shaped(t) && SameSessions(s, t) && Leads(s, via)
    ensures Leads(t, via)
  {
    forall k | 0 <= k < |via| ensures Serves(t, via[k]) && Serves(t, Mate(via[k])) {
      assert Serves(s, via[k]) && Serves(s, Mate(via[k]));
    }
  }

  /** Neither end of a link is behind, nor has a one-shot exchange open beside it. */
  ghost predicate FreshLink(peers: nat, es: seq<Event>, s: Net, i: nat)
    requires Runs(Init(peers), es, s) && Serves(s, i) && Serves(s, Mate(i))
  {
    && !Behind(Init(peers), es, s, i, false) && AllLive(s, s.ends[i].peer)
    && !Behind(Init(peers), es, s, Mate(i), false) && AllLive(s, s.ends[Mate(i)].peer)
  }

  /**
   From every reachable state, delivering what is in flight leads to rest, and
   there all peers linked in that state by fully granted live sessions agree, if
   no end that links them is behind and their peers have no one-shot exchange open.
   */
  lemma {:induction false} PeersConverge(peers: nat, before: seq<Event>, s: Net) returns (es: seq<Event>, t: Net)
    requires Runs(Init(peers), before, s)
    ensures Shaped(s) && Shaped(t) && Runs(s, es, t) && Quiet(t)
    ensures forall e | e in es :: e.Deliver? || e.Nudge?
    ensures forall via | Leads(s, via) :: Leads(t, via)
    ensures forall via | Leads(s, via) && forall k | 0 <= k < |via| :: FreshLink(peers, before, s, via[k]) ::
      From(t, via) == To(t, via)
  {
    RunsKeepInv(Init(peers), before, s);
    es, t := ComesToRest(s, AllOps(s));
    RunsKeepInv(s, es, t);
    RunsKeepSessions(s, es, t);
    forall via | Leads(s, via) ensures Leads(t, via) {
      LeadsOn(s, t, via);
    }
    forall via | Leads(s, via) && forall k | 0 <= k < |via| :: FreshLink(peers, before, s, via[k])
      ensures From(t, via) == To(t, via)
    {
      forall k | 0 <= k < |via| ensures Delivered(t, via[k]) && Delivered(t, Mate(via[k])) {
        assert FreshLink(peers, before, s, via[k]);
        FreshDelivers(peers, before, s, es, t, via[k]);
        FreshDelivers(peers, before, s, es, t, Mate(via[k]));
      }
      LinkedPeersAgree(t, via);
    }
  }

  lemma FreshDelivers(peers: nat, before: seq<Event>, s: Net, es: seq<Event>, t: Net, i: nat)
    requires Runs(Init(peers), before, s) && Inv(s) && Runs(s, es, t) && Quiet(t)
    requires forall e | e in es :: e.Deliver? || e.Nudge?
    requires Serves(s, i) && Serves(t, i) && !Behind(Init(peers), before, s, i, false) && AllLive(s, s.ends[i].peer)
    ensures Shaped(t) && Delivered(t, i)
  {
    RunsNotice(Init(peers), before, s, i, false);
    RunsNotice(s, es, t, i, false);
    LiveNotBehind(s, es, t, i);
    QuietDelivers(t, i, false);
  }
}
