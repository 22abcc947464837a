/** What is sent is only what the other side is not known to have, and only once. */
module Gaps {
  import opened Wrappers
  import opened CausalDoc
  import opened SyncProtocol
  import opened Network
  import opened Convergence

  /** A one-shot driver answers a peer that may read with exactly what the doc has and its `Have` does not name. */
  lemma AnswerIsTheGap(perms: Perms, doc: DocState, vv: Version)
    ensures var (r, phase, doc') := OneShotOn(perms, AwaitHave, doc, Have(Good(vv)));
      && r.Ok? && r.value.Send? && doc' == doc && phase == AwaitUpdates
      && var u := OpsOf(r.value.msg);
      && (perms.pull ==> u !! vv && u + vv == doc.version + vv && u <= doc.version)
      && (!perms.pull ==> u == {})
  {
  }

  /** A live end answers a `Have` with exactly that too, and with nothing if there is nothing. */
  lemma LiveAnswerIsTheGap(perms: Perms, acked: Version, doc: DocState, vv: Version)
    ensures var (r, acked', doc') := LiveOn(perms, acked, doc, Have(Good(vv)));
      && r.Ok? && doc' == doc && !r.value.changed
      && (r.value.send == None <==> !perms.pull || vv == doc.version)
      && (r.value.send.Some? ==>
            var u := OpsOf(r.value.send.value); u !! vv && u + vv == doc.version + vv && u <= doc.version)
      && (perms.pull ==> acked' == doc.version)
  {
  }

  /** What end `i` posts in a step. */
  ghost function PostOf(s: Net, e: Event, i: nat): Version
    requires Shaped(s) && Enabled(s, e)
  {
    if e.Deliver? && e.i == i then
      var send := OnFrame(s.ends[i], s.docs[s.ends[i].peer]).send;
      if send.Some? then OpsOf(send.value) else {}
    else if e.Nudge? && e.i == i then
      var send := OnNudge(s.ends[i], s.docs[s.ends[i].peer], e.taken).send;
      if send.Some? then OpsOf(send.value) else {}
    else {}
  }

  ghost function PostsOf(s: Net, es: seq<Event>, t: Net, i: nat): Version
    requires Runs(s, es, t)
    decreases |es|
  {
    if es == [] then {} else PostOf(s, es[0], i) + PostsOf(Next(s, es[0]), es[1..], t, i)
  }

  /** No operation is in two posts of end `i`. */
  ghost predicate PostsOnce(s: Net, es: seq<Event>, t: Net, i: nat)
    requires Runs(s, es, t)
    decreases |es|
  {
    es == [] ||
    (PostOf(s, es[0], i) !! PostsOf(Next(s, es[0]), es[1..], t, i) && PostsOnce(Next(s, es[0]), es[1..], t, i))
  }

  /** End `i` takes no `Have`. */
  ghost predicate NoHave(s: Net, es: seq<Event>, t: Net, i: nat)
    requires Runs(s, es, t)
    decreases |es|
  {
    es == [] ||
    (!(es[0].Deliver? && es[0].i == i && s.ends[i].inbox[0].Have?) && NoHave(Next(s, es[0]), es[1..], t, i))
  }

  /** A live end whose mark is within its own doc. */
  ghost predicate Marks(s: Net, i: nat)
    requires Shaped(s)
  {
    i < |s.ends| && s.ends[i].role.Streaming? &&
    (s.ends[i].open && s.ends[i].perms.pull ==> s.ends[i].role.acked <= s.docs[s.ends[i].peer].version)
  }

  lemma PostMovesMark(s: Net, e: Event, i: nat)
    requires Inv(s) && Enabled(s, e) && Marks(s, i)
    requires !(e.Deliver? && e.i == i && s.ends[i].inbox[0].Have?)
    ensures Shaped(Next(s, e)) && Marks(Next(s, e), i)
    ensures var acked, acked' := s.ends[i].role.acked, Next(s, e).ends[i].role.acked;
      acked <= acked' && PostOf(s, e, i) !! acked && PostOf(s, e, i) <= acked'
  {
    hide EndOk;
    StepKeepsInv(s, e);
    if e.Deliver? {
      TakenWhole(s, e.i);
    }
  }

  lemma {:induction false} PostsBeyondMark(s: Net, es: seq<Event>, t: Net, i: nat)
    requires Inv(s) && Runs(s, es, t) && Marks(s, i) && NoHave(s, es, t, i)
    ensures PostsOf(s, es, t, i) !! s.ends[i].role.acked
    ensures PostsOnce(s, es, t, i)
    decreases |es|
  {
    hide EndOk, Next, PostOf, Marks;
    if es != [] {
      StepKeepsInv(s, es[0]);
      PostMovesMark(s, es[0], i);
      PostsBeyondMark(Next(s, es[0]), es[1..], t, i);
    }
  }

  /**
   In every run from every reachable state, a live end posts nothing its mark
   names, and until its mate's next `Have` no operation twice.
   */
  lemma NothingSentTwice(peers: nat, before: seq<Event>, s: Net, es: seq<Event>, t: Net, i: nat)
    requires Runs(Init(peers), before, s) && Runs(s, es, t)
    requires i < |s.ends| && s.ends[i].role.Streaming? && NoHave(s, es, t, i)
    ensures PostsOf(s, es, t, i) !! s.ends[i].role.acked && PostsOnce(s, es, t, i)
  {
    RunsNotice(Init(peers), before, s, i, false);
    PostsBeyondMark(s, es, t, i);
  }
}
