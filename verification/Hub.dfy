/**
 Presence through a hub: sessions share one store and one relay. Every session
 queues what is relayed; draining its queue sends frames to its peer.
 */
module PresenceHub {
  import opened Wrappers
  import opened PresenceWire
  import opened PresenceStore

  /** Who put an item on the relay: the hub itself or session `i`. */
  datatype Source = Own | From(i: nat)

  datatype Item = Item(origin: string, bytes: seq<byte>, source: Source)

  datatype Sent = Relayed(item: Item) | Snapshot(store: Store)

  /** `heard` collects every key a session's peer ever sent, allowed or not. */
  datatype Session = Session(owner: Option<string>, queue: seq<Item>, sent: seq<Sent>, heard: set<string>)

  datatype Hub = Hub(me: string, store: Store, written: set<string>, sessions: seq<Session>)

  datatype Event =
    | Set(entry: Entry)
    | Expire(keys: set<string>)
    | Open(owner: Option<string>)
    /** A frame arrives from session `i`'s peer. */
    | Frame(i: nat, bytes: seq<byte>)
    /** Session `i` takes the oldest item of its queue. */
    | Drain(i: nat)
    /** Session `i` fell `missed` items behind and catches up with a snapshot. */
    | Lag(i: nat, missed: nat)

  ghost predicate Enabled(h: Hub, e: Event) {
    match e
    case Set(entry) => EntryFits(entry)
    case Expire(_) => true
    case Open(_) => true
    case Frame(i, _) => i < |h.sessions|
    case Drain(i) => i < |h.sessions| && h.sessions[i].queue != []
    case Lag(i, missed) => i < |h.sessions| && missed <= |h.sessions[i].queue|
  }

  function FanOut(sessions: seq<Session>, item: Item): seq<Session> {
    seq(|sessions|, i requires 0 <= i < |sessions| => sessions[i].(queue := sessions[i].queue + [item]))
  }

  function Keys(bytes: seq<byte>): set<string> {
    match FromBytes(bytes) case None => {} case Some(es) => set e | e in es :: e.key
  }

  ghost function Next(h: Hub, e: Event): Hub
    requires Enabled(h, e)
  {
    match e
    case Set(entry) =>
      h.(store := Merge(h.store, [entry]), written := h.written + {entry.key},
         sessions := FanOut(h.sessions, Item(h.me, ToBytes([entry]), Own)))
    case Expire(keys) => h.(store := h.store - keys)
    case Open(owner) => h.(sessions := h.sessions + [Session(owner, [], [Snapshot(h.store)], {})])
    case Frame(i, bytes) =>
      var s := h.sessions[i];
      var sessions := h.sessions[i := s.(heard := s.heard + Keys(bytes))];
      var sane := Sane(bytes, s.owner);
      h.(store := Merge(h.store, Kept(bytes, s.owner)),
         sessions := if s.owner.Some? && sane.Some? then FanOut(sessions, Item(s.owner.value, sane.value, From(i)))
                     else sessions)
    case Drain(i) =>
      var s := h.sessions[i];
      var sent := if s.owner != Some(s.queue[0].origin) then s.sent + [Relayed(s.queue[0])] else s.sent;
      h.(sessions := h.sessions[i := s.(queue := s.queue[1..], sent := sent)])
    case Lag(i, missed) =>
      var s := h.sessions[i];
      h.(sessions := h.sessions[i := s.(queue := s.queue[missed..], sent := s.sent + [Snapshot(h.store)])])
  }

  ghost predicate Runs(h: Hub, es: seq<Event>, t: Hub)
    decreases |es|
  {
    if es == [] then h == t else Enabled(h, es[0]) && Runs(Next(h, es[0]), es[1..], t)
  }

  /** A key in the store was written here, or sent by a session that may write it. */
  ghost predicate Accounted(h: Hub, key: string) {
    || key in h.written
    || exists i :: 0 <= i < |h.sessions| && key in h.sessions[i].heard && MayWrite(h.sessions[i].owner, key)
  }

  /** An item holds only its origin's keys (or, from the hub itself, keys written here). */
  ghost predicate Honest(h: Hub, item: Item) {
    match item.source
    case Own => item.origin == h.me && Keys(item.bytes) <= h.written
    case From(i) =>
      && FromBytes(item.bytes).Some? && i < |h.sessions| && h.sessions[i].owner == Some(item.origin)
      && forall key | key in Keys(item.bytes) :: OwnsKey(item.origin, key)
  }

  ghost predicate SentOk(h: Hub, i: nat, sent: Sent)
    requires i < |h.sessions|
  {
    sent.Relayed? ==> Honest(h, sent.item) && h.sessions[i].owner != Some(sent.item.origin)
  }

  ghost predicate Inv(h: Hub) {
    && (forall key | key in h.store :: Accounted(h, key))
    && (forall i, item | 0 <= i < |h.sessions| && item in h.sessions[i].queue :: Honest(h, item))
    && (forall i, sent | 0 <= i < |h.sessions| && sent in h.sessions[i].sent :: SentOk(h, i, sent))
  }

  /** Owners stay, and what was heard or written stays. */
  ghost predicate Grows(h: Hub, t: Hub) {
    && h.me == t.me && h.written <= t.written && |h.sessions| <= |t.sessions|
    && forall i | 0 <= i < |h.sessions| ::
         t.sessions[i].owner == h.sessions[i].owner && h.sessions[i].heard <= t.sessions[i].heard
  }

  lemma GrowthKeeps(h: Hub, t: Hub)
    requires Grows(h, t)
    ensures forall key :: Accounted(h, key) ==> Accounted(t, key)
    ensures forall item :: Honest(h, item) ==> Honest(t, item)
  {
    forall key | Accounted(h, key) ensures Accounted(t, key) {
      if key !in h.written {
        var i :| 0 <= i < |h.sessions| && key in h.sessions[i].heard && MayWrite(h.sessions[i].owner, key);
        assert key in t.sessions[i].heard;
      }
    }
  }

  lemma SetKeepsInv(h: Hub, entry: Entry)
    requires Inv(h) && Enabled(h, Set(entry))
    ensures Inv(Next(h, Set(entry)))
  {
    var t := Next(h, Set(entry));
    GrowthKeeps(h, t);
    PresenceRoundTrip([entry], []);
    assert ToBytes([entry]) + [] == ToBytes([entry]);
    MergeKeys(h.store, [entry]);
    assert Keys(ToBytes([entry])) <= {entry.key};
    forall i, sent | 0 <= i < |t.sessions| && sent in t.sessions[i].sent ensures SentOk(t, i, sent) {
      assert SentOk(h, i, sent);
    }
  }

  lemma FrameAccounted(h: Hub, i: nat, bytes: seq<byte>)
    requires Inv(h) && Enabled(h, Frame(i, bytes))
    ensures var t := Next(h, Frame(i, bytes)); forall key | key in t.store :: Accounted(t, key)
  {
    var t, s := Next(h, Frame(i, bytes)), h.sessions[i];
    var kept := Kept(bytes, s.owner);
    GrowthKeeps(h, t);
    MergeKeys(h.store, kept);
    forall key | key in t.store ensures Accounted(t, key) {
      if key !in h.store {
        var e :| e in kept && e.key == key;
        assert e in FromBytes(bytes).value && key in Keys(bytes);
        assert key in t.sessions[i].heard && MayWrite(t.sessions[i].owner, key);
      }
    }
  }

  lemma {:induction false} FrameItemHonest(h: Hub, i: nat, bytes: seq<byte>)
    requires Enabled(h, Frame(i, bytes)) && h.sessions[i].owner.Some?
    requires Sane(bytes, h.sessions[i].owner).Some?
    ensures Honest(h, Item(h.sessions[i].owner.value, Sane(bytes, h.sessions[i].owner).value, From(i)))
  {
    var _ := SaneIsOwned(bytes, h.sessions[i].owner);
  }

  lemma {:induction false} FrameKeepsInv(h: Hub, i: nat, bytes: seq<byte>)
    requires Inv(h) && Enabled(h, Frame(i, bytes))
    ensures Inv(Next(h, Frame(i, bytes)))
  {
    hide Kept, Sane, Keys, Merge, FromBytes;
    var t := Next(h, Frame(i, bytes));
    GrowthKeeps(h, t);
    FrameAccounted(h, i, bytes);
    if h.sessions[i].owner.Some? && Sane(bytes, h.sessions[i].owner).Some? {
      FrameItemHonest(h, i, bytes);
    }
    forall j, sent | 0 <= j < |t.sessions| && sent in t.sessions[j].sent ensures SentOk(t, j, sent) {
      assert SentOk(h, j, sent);
    }
  }

  lemma {:induction false} StepKeepsInv(h: Hub, e: Event)
    requires Inv(h) && Enabled(h, e)
    ensures Inv(Next(h, e))
  {
    var t := Next(h, e);
    match e {
      case Set(entry) => SetKeepsInv(h, entry);
      case Frame(i, bytes) => FrameKeepsInv(h, i, bytes);
      case _ =>
        GrowthKeeps(h, t);
        forall j, sent | 0 <= j < |t.sessions| && sent in t.sessions[j].sent ensures SentOk(t, j, sent) {
          if j < |h.sessions| && sent in h.sessions[j].sent {
            assert SentOk(h, j, sent);
          }
        }
    }
  }

  lemma {:induction false} RunsKeepInv(h: Hub, es: seq<Event>, t: Hub)
    requires Inv(h) && Runs(h, es, t)
    ensures Inv(t)
    decreases |es|
  {
    if es != [] {
      StepKeepsInv(h, es[0]);
      RunsKeepInv(Next(h, es[0]), es[1..], t);
    }
  }

  /**
   In every state a hub can reach, each key in its store was written there or
   sent on a session that may write it; each frame relayed to a session carries
   only keys of its origin (or the hub's own writes) and was not that peer's own.
   */
  lemma HubKeepsOwnership(me: string, es: seq<Event>, h: Hub)
    requires Runs(Hub(me, map[], {}, []), es, h)
    ensures forall key | key in h.store :: Accounted(h, key)
    ensures forall i, sent | 0 <= i < |h.sessions| && sent in h.sessions[i].sent && sent.Relayed? ::
      Honest(h, sent.item) && h.sessions[i].owner != Some(sent.item.origin)
  {
    RunsKeepInv(Hub(me, map[], {}, []), es, h);
    forall i, sent | 0 <= i < |h.sessions| && sent in h.sessions[i].sent && sent.Relayed?
      ensures Honest(h, sent.item) && h.sessions[i].owner != Some(sent.item.origin)
    {
      assert SentOk(h, i, sent);
    }
  }

  /** Frames relayed for two slash-free namespaces never speak about the same key. */
  lemma RelaysNeverCollide(me: string, es: seq<Event>, h: Hub, i: nat, j: nat, a: Item, b: Item)
    requires Runs(Hub(me, map[], {}, []), es, h)
    requires i < |h.sessions| && Relayed(a) in h.sessions[i].sent && a.source.From?
    requires j < |h.sessions| && Relayed(b) in h.sessions[j].sent && b.source.From?
    requires a.origin != b.origin && '/' !in a.origin && '/' !in b.origin
    ensures Keys(a.bytes) !! Keys(b.bytes)
  {
    HubKeepsOwnership(me, es, h);
    assert Relayed(a).item == a && Relayed(b).item == b;
    assert Honest(h, a) && Honest(h, b);
    forall key | key in Keys(a.bytes) ensures key !in Keys(b.bytes) {
      OwnerIsNamespace(a.origin, key);
      OwnerIsNamespace(b.origin, key);
    }
  }

  // ---- what is relayed arrives ----

  /** The item an event puts on the relay, if any: what is set here, and what is kept of an owner's frame. */
  ghost function Issued(h: Hub, e: Event): Option<Item>
    requires Enabled(h, e)
  {
    match e
    case Set(entry) => Some(Item(h.me, ToBytes([entry]), Own))
    case Frame(i, bytes) =>
      var owner := h.sessions[i].owner;
      if owner.Some? && Kept(bytes, owner) != []
      then Some(Item(owner.value, Sane(bytes, owner).value, From(i)))
      else None
    case _ => None
  }

  /** All that a run puts on the relay, in order. */
  ghost function Log(h: Hub, es: seq<Event>, t: Hub): seq<Item>
    requires Runs(h, es, t)
    decreases |es|
  {
    if es == [] then []
    else (match Issued(h, es[0]) case Some(item) => [item] case None => []) + Log(Next(h, es[0]), es[1..], t)
  }

  /** Not to be sent on a session of the item's own origin. */
  function NotFrom(owner: Option<string>): Item -> bool {
    (item: Item) => owner != Some(item.origin)
  }

  predicate Skips(e: Event, i: nat) {
    e.Lag? && e.i == i
  }

  /** What a step does to the queue and to what is sent on session `i`. */
  lemma SessionStep(h: Hub, e: Event, i: nat)
    requires Enabled(h, e) && i < |h.sessions|
    ensures i < |Next(h, e).sessions|
    ensures var s, s' := h.sessions[i], Next(h, e).sessions[i];
      var more := match Issued(h, e) case Some(item) => [item] case None => [];
      && s'.owner == s.owner
      && (if e.Drain? && e.i == i then
            && s.queue == [s.queue[0]] + s'.queue && more == []
            && s'.sent == s.sent + if s.owner == Some(s.queue[0].origin) then [] else [Relayed(s.queue[0])]
          else if Skips(e, i) then
            && s'.queue == s.queue[e.missed..] && more == [] && s'.sent == s.sent + [Snapshot(h.store)]
          else s'.queue == s.queue + more && s'.sent == s.sent)
  {
    hide Merge, FromBytes, ToBytes, Keys;
  }

  /** `sent` went out on a session after `before`, in order. */
  ghost predicate SentAfter(before: seq<Sent>, items: seq<Item>, sent: seq<Sent>) {
    && |sent| == |before| + |items| && before <= sent
    && forall k | 0 <= k < |items| :: sent[|before| + k] == Relayed(items[k])
  }

  /**
   In order, each once. As long as session `i` does not lag, what was queued and
   what has been issued since is what has been taken off its queue followed by
   what is still there; and of what was taken off, exactly the items that are not
   its own peer's were sent, in order.
   */
  lemma {:induction false} RelayedInOrder(h: Hub, es: seq<Event>, t: Hub, i: nat)
    returns (taken: seq<Item>, picked: seq<Item>, at: seq<nat>)
    requires Runs(h, es, t) && i < |h.sessions| && forall e | e in es :: !Skips(e, i)
    ensures i < |t.sessions| && t.sessions[i].owner == h.sessions[i].owner
    ensures h.sessions[i].queue + Log(h, es, t) == taken + t.sessions[i].queue
    ensures Selects(taken, NotFrom(h.sessions[i].owner), picked, at)
    ensures SentAfter(h.sessions[i].sent, picked, t.sessions[i].sent)
    decreases |es|
  {
    hide Selects, Next, Issued, SentAfter;
    var s := h.sessions[i];
    if es == [] {
      taken, picked := [], [];
      at := NothingTaken(s);
    } else {
      var e, u := es[0], Next(h, es[0]);
      assert e in es;
      SessionStep(h, e, i);
      taken, picked, at := RelayedInOrder(u, es[1..], t, i);
      if e.Drain? && e.i == i {
        var item := s.queue[0];
        assert Log(h, es, t) == Log(u, es[1..], t);
        OneMoreTaken(item, u.sessions[i].queue, Log(u, es[1..], t), taken, t.sessions[i].queue);
        SelectsCons(item, taken, NotFrom(s.owner), picked, at);
        taken := [item] + taken;
        if s.owner != Some(item.origin) {
          OneMoreSent(item, s.sent, picked, u.sessions[i].sent, t.sessions[i].sent);
          picked, at := [item] + picked, [0] + Shift(at);
        } else {
          assert u.sessions[i].sent == s.sent;
          at := Shift(at);
        }
      } else {
        var more := match Issued(h, e) case Some(item) => [item] case None => [];
        assert s.queue + (more + Log(u, es[1..], t)) == s.queue + more + Log(u, es[1..], t);
      }
    }
  }

  lemma OneMoreTaken(item: Item, queue: seq<Item>, more: seq<Item>, taken: seq<Item>, rest: seq<Item>)
    requires queue + more == taken + rest
    ensures [item] + queue + more == [item] + taken + rest
  {
    assert [item] + queue + more == [item] + (queue + more);
    assert [item] + taken + rest == [item] + (taken + rest);
  }

  lemma OneMoreSent(item: Item, before: seq<Sent>, items: seq<Item>, next: seq<Sent>, sent: seq<Sent>)
    requires next == before + [Relayed(item)] && SentAfter(next, items, sent)
    ensures SentAfter(before, [item] + items, sent)
  {
    assert sent[|before|] == next[|before|] == Relayed(item);
    forall k | 0 <= k < |items| + 1 ensures sent[|before| + k] == Relayed(([item] + items)[k]) {
      if k > 0 {
        assert sent[|next| + (k - 1)] == Relayed(items[k - 1]);
      }
    }
  }

  lemma NothingTaken(s: Session) returns (at: seq<nat>)
    ensures Selects([], NotFrom(s.owner), [], at) && SentAfter(s.sent, [], s.sent)
  {
    at := [];
  }

  /** A lag at step `k` took the item off the queue of session `i` and sent the store as it then was. */
  ghost predicate SkippedAt(h: Hub, es: seq<Event>, t: Hub, i: nat, item: Item, k: nat, u: Hub) {
    && k < |es| && Skips(es[k], i) && Runs(h, es[..k], u)
    && i < |u.sessions| && item in u.sessions[i].queue[..Least(es[k].missed, |u.sessions[i].queue|)]
    && i < |t.sessions| && |u.sessions[i].sent| < |t.sessions[i].sent|
    && t.sessions[i].sent[|u.sessions[i].sent|] == Snapshot(u.store)
  }

  function Least(a: nat, b: nat): nat {
    if a < b then a else b
  }

  /** What became of an item that was in the queue of session `i`. */
  ghost predicate Reached(h: Hub, es: seq<Event>, t: Hub, i: nat, item: Item) {
    && i < |h.sessions| && i < |t.sessions|
    && (|| item in t.sessions[i].queue
        || Relayed(item) in t.sessions[i].sent[Least(|h.sessions[i].sent|, |t.sessions[i].sent|)..]
        || h.sessions[i].owner == Some(item.origin)
        || exists k: nat, u :: SkippedAt(h, es, t, i, item, k, u))
  }

  lemma {:induction false} SentGrows(h: Hub, es: seq<Event>, t: Hub, i: nat)
    requires Runs(h, es, t) && i < |h.sessions|
    ensures i < |t.sessions| && h.sessions[i].sent <= t.sessions[i].sent
    decreases |es|
  {
    hide Next, Issued;
    if es != [] {
      SessionStep(h, es[0], i);
      SentGrows(Next(h, es[0]), es[1..], t, i);
    }
  }

  /** Whatever is queued stays queued, is sent, is the peer's own, or is skipped by a lag that sends a snapshot. */
  lemma {:induction false} QueuedReaches(h: Hub, es: seq<Event>, t: Hub, i: nat, item: Item)
    requires Runs(h, es, t) && i < |h.sessions| && item in h.sessions[i].queue
    ensures Reached(h, es, t, i, item)
    decreases |es|
  {
    hide Next, Issued, SkippedAt;
    SentGrows(h, es, t, i);
    if es != [] {
      var e, u := es[0], Next(h, es[0]);
      SessionStep(h, e, i);
      SentGrows(u, es[1..], t, i);
      var s, s' := h.sessions[i], u.sessions[i];
      if item in s'.queue {
        QueuedReaches(u, es[1..], t, i, item);
        ReachedLater(h, es, t, i, item);
      } else if e.Drain? && e.i == i {
        assert item == s.queue[0];
        if s.owner != Some(item.origin) {
          assert t.sessions[i].sent[|s.sent|..][0] == Relayed(item);
        }
      } else {
        SkippedNow(h, es, t, i, item);
      }
    }
  }

  lemma SkippedNow(h: Hub, es: seq<Event>, t: Hub, i: nat, item: Item)
    requires Runs(h, es, t) && es != [] && i < |h.sessions| && Skips(es[0], i)
    requires item in h.sessions[i].queue && item !in Next(h, es[0]).sessions[i].queue
    ensures SkippedAt(h, es, t, i, item, 0, h)
  {
    hide Next, Issued;
    SessionStep(h, es[0], i);
    SentGrows(Next(h, es[0]), es[1..], t, i);
    assert es[..0] == [] && Runs(h, [], h);
    var q, n := h.sessions[i].queue, es[0].missed;
    assert n <= |q| && q == q[..n] + q[n..];
  }

  lemma ReachedLater(h: Hub, es: seq<Event>, t: Hub, i: nat, item: Item)
    requires Runs(h, es, t) && es != [] && i < |h.sessions| && i < |Next(h, es[0]).sessions|
    requires Next(h, es[0]).sessions[i].owner == h.sessions[i].owner
    requires i < |t.sessions| && h.sessions[i].sent <= Next(h, es[0]).sessions[i].sent <= t.sessions[i].sent
    requires Reached(Next(h, es[0]), es[1..], t, i, item)
    ensures Reached(h, es, t, i, item)
  {
    hide Next;
    var u := Next(h, es[0]);
    var a, b, sent := |h.sessions[i].sent|, |u.sessions[i].sent|, t.sessions[i].sent;
    if Relayed(item) in sent[b..] {
      var k :| 0 <= k < |sent[b..]| && sent[b..][k] == Relayed(item);
      assert sent[a..][b - a + k] == Relayed(item);
    } else if k: nat, v :| SkippedAt(u, es[1..], t, i, item, k, v) {
      assert es[..k + 1] == [es[0]] + es[1..][..k];
      assert SkippedAt(h, es, t, i, item, k + 1, v);
    }
  }

  /**
   Nothing is withheld. Whatever an event puts on the relay, every session then
   open, but for those of the item's origin, has queued, has been sent, or has
   been caught up on by a snapshot of the store taken after it, when it lagged.
   */
  lemma IssuedReaches(h: Hub, e: Event, after: seq<Event>, t: Hub, i: nat)
    requires Enabled(h, e) && Issued(h, e).Some? && Runs(Next(h, e), after, t) && i < |h.sessions|
    ensures Reached(Next(h, e), after, t, i, Issued(h, e).value)
  {
    hide Issued, Next;
    SessionStep(h, e, i);
    IssuersDoNotDrain(h, e);
    assert Issued(h, e).value in Next(h, e).sessions[i].queue;
    QueuedReaches(Next(h, e), after, t, i, Issued(h, e).value);
  }

  lemma IssuersDoNotDrain(h: Hub, e: Event)
    requires Enabled(h, e) && Issued(h, e).Some?
    ensures !e.Drain? && !e.Lag?
  {
  }

  // ---- and so peers know the latest ----

  /** The peer has been told of `e` or of something later under that key. */
  ghost predicate Told(sent: seq<Sent>, e: Entry) {
    exists m | m in sent :: Tells(m, e)
  }

  ghost predicate Tells(m: Sent, e: Entry) {
    match m
    case Relayed(item) =>
      && FromBytes(item.bytes).Some?
      && exists x | x in FromBytes(item.bytes).value :: x.key == e.key && x.timestamp >= e.timestamp
    case Snapshot(store) => Covers(store, e)
  }

  ghost predicate Covers(store: Store, e: Entry) {
    e.key in store && store[e.key].timestamp >= e.timestamp
  }

  /** What an event writes into the store, here or from a frame. */
  ghost function Writes(h: Hub, e: Event): seq<Entry>
    requires Enabled(h, e)
  {
    match e
    case Set(entry) => [entry]
    case Frame(i, bytes) => Kept(bytes, h.sessions[i].owner)
    case _ => []
  }

  lemma WrittenIsCovered(h: Hub, e: Event, x: Entry)
    requires Enabled(h, e)
    ensures x in Writes(h, e) ==> Covers(Next(h, e).store, x)
    ensures Covers(h.store, x) && !e.Expire? ==> Covers(Next(h, e).store, x)
  {
    hide Kept, Sane, FromBytes, ToBytes, Keys;
    LatestWins(h.store, Writes(h, e), x.key);
  }

  lemma {:induction false} StaysCovered(h: Hub, es: seq<Event>, t: Hub, x: Entry)
    requires Runs(h, es, t) && Covers(h.store, x) && forall e | e in es :: !e.Expire?
    ensures Covers(t.store, x)
    decreases |es|
  {
    hide Next;
    if es != [] {
      assert es[0] in es;
      WrittenIsCovered(h, es[0], x);
      StaysCovered(Next(h, es[0]), es[1..], t, x);
    }
  }

  lemma IssuedTells(h: Hub, e: Event, x: Entry)
    requires Enabled(h, e) && Issued(h, e).Some? && x in Writes(h, e) && (e.Set? ==> AllShallow([x]))
    ensures Tells(Relayed(Issued(h, e).value), x)
  {
    hide Kept, Sane;
    match e
    case Set(entry) =>
      PresenceRoundTrip([entry], []);
      assert ToBytes([entry]) + [] == ToBytes([entry]);
    case Frame(i, bytes) =>
      KeptIsRelayed(bytes, h.sessions[i].owner);
  }

  lemma {:induction false} KeptIsRelayed(bytes: seq<byte>, owner: Option<string>)
    requires Kept(bytes, owner) != []
    ensures Sane(bytes, owner).Some? && FromBytes(Sane(bytes, owner).value) == Some(Kept(bytes, owner))
  {
    var _ := SaneIsOwned(bytes, owner);
  }

  /** `x` is set here, or comes in a frame whose sender owns it; session `i` is not of the same origin. */
  ghost predicate NewsFor(h: Hub, e: Event, i: nat, x: Entry) {
    i < |h.sessions| &&
    match e
    case Set(entry) => x == entry && EntryFits(x) && AllShallow([x]) && h.sessions[i].owner != Some(h.me)
    case Frame(j, bytes) =>
      && j < |h.sessions| && h.sessions[j].owner.Some? && h.sessions[j].owner != h.sessions[i].owner
      && FromBytes(bytes).Some? && x in FromBytes(bytes).value && Owned(h.sessions[j].owner)(x)
    case _ => false
  }

  lemma NewsIsIssued(h: Hub, e: Event, i: nat, x: Entry)
    requires NewsFor(h, e, i, x)
    ensures Enabled(h, e) && Issued(h, e).Some? && x in Writes(h, e) && (e.Set? ==> AllShallow([x]))
    ensures h.sessions[i].owner != Some(Issued(h, e).value.origin)
  {
    hide Kept, Sane, FromBytes, ToBytes;
    if e.Frame? {
      var owner := h.sessions[e.i].owner;
      var at := SaneIsOwned(e.bytes, owner);
      var k :| 0 <= k < |FromBytes(e.bytes).value| && FromBytes(e.bytes).value[k] == x;
      assert k as nat in at;
      var m :| 0 <= m < |at| && at[m] == k;
      assert Kept(e.bytes, owner)[m] == x;
    }
  }

  /**
   Peers know the latest. With nothing expired since, a session whose queue is
   drained has told its peer of everything set here or sent by another owner
   under its own keys while it was open, or of something later under that key.
   */
  lemma {:induction false} PeersKnowTheLatest(h: Hub, e: Event, after: seq<Event>, t: Hub, i: nat, x: Entry)
    requires NewsFor(h, e, i, x) && Enabled(h, e)
    requires Runs(Next(h, e), after, t) && forall e | e in after :: !e.Expire?
    ensures i < |t.sessions| && (t.sessions[i].queue == [] ==> Told(t.sessions[i].sent, x))
    ensures Covers(t.store, x)
  {
    hide Issued, Next, Writes, Covers, SkippedAt, Tells, NewsFor;
    NewsIsIssued(h, e, i, x);
    NewsHasSession(h, e, i, x);
    var item, u := Issued(h, e).value, Next(h, e);
    SessionStep(h, e, i);
    WrittenIsCovered(h, e, x);
    StaysCovered(u, after, t, x);
    IssuedReaches(h, e, after, t, i);
    IssuedTells(h, e, x);
    if k: nat, v :| SkippedAt(u, after, t, i, item, k, v) {
      SnapshotTells(u, after, t, i, item, k, v, x);
    }
  }

  /** Expiry takes exactly the expired keys away, and tells nobody. */
  lemma ExpiryIsExact(h: Hub, keys: set<string>, key: string)
    ensures var t := Next(h, Expire(keys));
      && (key in t.store <==> key in h.store && key !in keys)
      && (key in t.store ==> t.store[key] == h.store[key]) && t.sessions == h.sessions
  {
  }

  /** A session that opens is told of all the store has. */
  lemma OpeningTells(h: Hub, owner: Option<string>, x: Entry)
    requires Covers(h.store, x)
    ensures Told(Next(h, Open(owner)).sessions[|h.sessions|].sent, x)
  {
    var sent := Next(h, Open(owner)).sessions[|h.sessions|].sent;
    assert sent[0] in sent && Tells(sent[0], x);
  }

  lemma NewsHasSession(h: Hub, e: Event, i: nat, x: Entry)
    requires NewsFor(h, e, i, x)
    ensures i < |h.sessions|
  {
  }

  lemma SnapshotTells(h: Hub, es: seq<Event>, t: Hub, i: nat, item: Item, k: nat, u: Hub, x: Entry)
    requires SkippedAt(h, es, t, i, item, k, u) && Covers(h.store, x) && forall e | e in es :: !e.Expire?
    ensures i < |t.sessions| && Told(t.sessions[i].sent, x)
  {
    StaysCovered(h, es[..k], u, x);
    var m := t.sessions[i].sent[|u.sessions[i].sent|];
    assert m in t.sessions[i].sent && Tells(m, x);
  }

  /**
   What becomes of a value set here that nests too deep: its frame, and any
   snapshot it is part of, is malformed to every peer and changes nothing there.
   */
  lemma TooDeepIsRefused(es: seq<Entry>, owner: Option<string>, store: Store)
    requires EntriesFit(es)
    ensures FromBytes(ToBytes(es)).None? <==> !AllShallow(es)
    ensures !AllShallow(es) ==> Sane(ToBytes(es), owner).None? && Merge(store, Kept(ToBytes(es), owner)) == store
  {
    PresenceRoundTrip(es, []);
    assert ToBytes(es) + [] == ToBytes(es);
  }
}
