/**
 A doc seen as an event graph. An operation carries the operations it was
 built on, so an operation determines its whole history and a version is
 simply the set of operations applied so far.
 */
module CausalDoc {

  datatype Op = Op(author: nat, counter: nat, deps: set<Op>)

  type Version = set<Op>

  /** `o` and everything it was ever built on is in `s`. */
  predicate Grounded(o: Op, s: Version) {
    o in s && forall d | d in o.deps :: Grounded(d, s)
  }

  /** No operation of `s` refers to history outside `s`. */
  ghost predicate Closed(s: Version) {
    forall o | o in s :: o.deps <= s
  }

  /** The operations of `u` refer only to history in `s`. */
  ghost predicate Builds(u: Version, s: Version) {
    forall o | o in u :: o.deps <= s
  }

  /** The operations of `s` that can be applied. */
  function Settle(s: Version): Version {
    set o | o in s && Grounded(o, s)
  }

  /** What is applied, and what was received but is held for lack of history. */
  datatype DocState = DocState(version: Version, pending: Version) {
    /** A doc applies causally complete history and buffers nothing. */
    ghost predicate Clean() {
      Closed(version) && pending == {}
    }
  }

  /** Import a batch: apply what is grounded, hold the rest. */
  function Import(d: DocState, u: Version): DocState {
    var all := d.version + d.pending + u;
    DocState(Settle(all), all - Settle(all))
  }

  /** Whether importing `u` leaves part of the batch held. */
  predicate Orphans(d: DocState, u: Version) {
    u - Import(d, u).version != {}
  }

  /** The operations of `d` that `since` lacks. */
  function UpdatesSince(d: DocState, since: Version): Version {
    d.version - since
  }

  lemma {:induction false} ClosedGrounds(o: Op, s: Version)
    requires Closed(s) && o in s
    ensures Grounded(o, s)
  {
    forall d | d in o.deps ensures Grounded(d, s) {
      ClosedGrounds(d, s);
    }
  }

  /** Grounding survives growth, and only needs the closed part of a set. */
  lemma {:induction false} GroundedMonotone(o: Op, s: Version, t: Version)
    requires Grounded(o, s) && Settle(s) <= t
    ensures Grounded(o, t)
  {
    assert o in Settle(s);
    forall d | d in o.deps ensures Grounded(d, t) {
      GroundedMonotone(d, s, t);
    }
  }

  /** `Settle` keeps the largest causally complete part of what is on hand. */
  lemma SettleIsLargestClosed(s: Version)
    ensures Closed(Settle(s)) && Settle(s) <= s
    ensures forall c: Version :: Closed(c) && c <= s ==> c <= Settle(s)
    ensures Settle(s) == s <==> Closed(s)
  {
    forall c: Version, o | Closed(c) && c <= s && o in c ensures o in Settle(s) {
      ClosedGrounds(o, c);
      assert Settle(c) <= s;
      GroundedMonotone(o, c, s);
    }
    forall o, d | o in Settle(s) && d in o.deps ensures d in Settle(s) {
      assert Grounded(o, s) && Grounded(d, s);
    }
  }

  /** An import never loses applied history and keeps the doc causally complete. */
  lemma ImportGrows(d: DocState, u: Version)
    requires Closed(d.version)
    ensures Closed(Import(d, u).version)
    ensures d.version <= Import(d, u).version <= d.version + d.pending + u
  {
    SettleIsLargestClosed(d.version + d.pending + u);
  }

  /**
   A batch is refused exactly when some of it refers to history that is neither
   applied, nor held, nor in the batch. A doc that holds nothing applies a batch
   whole exactly when the batch builds on what the doc has.
   */
  lemma ImportWhole(d: DocState, u: Version)
    requires Closed(d.version)
    ensures Orphans(d, u) <==> exists o :: o in u && !Grounded(o, d.version + d.pending + u)
    ensures d.pending == {} ==> (Orphans(d, u) <==> !Builds(u, d.version + u))
    ensures d.pending == {} && !Orphans(d, u) ==> Import(d, u) == DocState(d.version + u, {})
  {
    var all := d.version + d.pending + u;
    SettleIsLargestClosed(all);
    if Orphans(d, u) {
      var o :| o in u - Settle(all);
      assert !Grounded(o, all);
    }
    forall o | o in u && !Grounded(o, all) ensures Orphans(d, u) {
      assert o in u - Settle(all);
    }
    if d.pending == {} {
      assert all == d.version + u;
      assert d.version <= Settle(all);
      assert Builds(u, all) <==> Closed(all);
      assert !Orphans(d, u) <==> Settle(all) == all;
    }
  }

  /**
   Shipping what a peer lacks and importing it is never refused and unites the
   two histories; what the peer still held from before may settle with it.
   */
  lemma CatchUp(sender: DocState, receiver: DocState, since: Version)
    requires Closed(sender.version) && Closed(receiver.version)
    requires since <= receiver.version
    ensures !Orphans(receiver, UpdatesSince(sender, since))
    ensures var after := Import(receiver, UpdatesSince(sender, since));
      && receiver.version + sender.version <= after.version
      && after.version <= receiver.version + sender.version + receiver.pending
      && (receiver.pending == {} ==> after == DocState(receiver.version + sender.version, {}))
  {
    var u := UpdatesSince(sender, since);
    var both := receiver.version + sender.version;
    assert both == receiver.version + u && Closed(both);
    SettleIsLargestClosed(receiver.version + receiver.pending + u);
    ImportWhole(receiver, u);
  }

  // ---- what is held is not forgotten ----

  /** An import neither loses nor invents operations, and applies or holds each. */
  lemma ImportLosesNothing(d: DocState, u: Version)
    ensures Import(d, u).version + Import(d, u).pending == d.version + d.pending + u
    ensures Import(d, u).version !! Import(d, u).pending
  {
  }

  /** One batch after another. */
  function ImportAll(d: DocState, batches: seq<Version>): DocState
    decreases |batches|
  {
    if batches == [] then d else ImportAll(Import(d, batches[0]), batches[1..])
  }

  /** Everything received. */
  function Received(batches: seq<Version>): Version {
    if batches == [] then {} else batches[0] + Received(batches[1..])
  }

  /** `c` is the largest causally complete part of `s`. */
  ghost predicate LargestClosed(c: Version, s: Version) {
    Closed(c) && c <= s && forall x: Version :: Closed(x) && x <= s ==> x <= c
  }

  /** A doc has applied all it could of what it ever received, and holds the rest. */
  ghost predicate Sorted(d: DocState) {
    d.version !! d.pending && LargestClosed(d.version, d.version + d.pending)
  }

  lemma CleanIsSorted(d: DocState)
    requires d.Clean()
    ensures Sorted(d)
  {
    assert d.version + {} == d.version;
  }

  /**
   Whatever the order and grouping, after any imports a doc has applied the
   largest causally complete part of all it ever received, and holds the rest.
   */
  lemma {:induction false} ImportsSort(d: DocState, batches: seq<Version>)
    requires Sorted(d)
    ensures var t := ImportAll(d, batches);
      Sorted(t) && t.version + t.pending == d.version + d.pending + Received(batches)
    decreases |batches|
  {
    if batches == [] {
      assert d.version + d.pending + {} == d.version + d.pending;
    } else {
      ImportLosesNothing(d, batches[0]);
      SettleIsLargestClosed(d.version + d.pending + batches[0]);
      ImportsSort(Import(d, batches[0]), batches[1..]);
      assert d.version + d.pending + Received(batches) ==
        d.version + d.pending + batches[0] + Received(batches[1..]);
    }
  }

  /** An operation is applied as soon as it and all it was ever built on have been received, and not before. */
  lemma AppliedOnceGrounded(d: DocState, batches: seq<Version>, o: Op)
    requires Sorted(d)
    ensures o in ImportAll(d, batches).version <==> Grounded(o, d.version + d.pending + Received(batches))
  {
    ImportsSort(d, batches);
    var t, all := ImportAll(d, batches), d.version + d.pending + Received(batches);
    SettleIsLargestClosed(all);
    assert t.version == Settle(all);
  }

  /** Two orders or groupings of the same operations give the same doc. */
  lemma OrderDoesNotMatter(d: DocState, batches: seq<Version>, others: seq<Version>)
    requires Sorted(d) && Received(batches) == Received(others)
    ensures ImportAll(d, batches) == ImportAll(d, others)
  {
    ImportsSort(d, batches);
    ImportsSort(d, others);
    var a, b := ImportAll(d, batches), ImportAll(d, others);
    assert a.version == b.version;
    assert a.pending == (a.version + a.pending) - a.version;
    assert b.pending == (b.version + b.pending) - b.version;
  }
}
