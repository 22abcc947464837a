/** The shared presence store and the rule that keeps peers to their own keys. */
module PresenceStore {
  import opened Wrappers
  import opened PresenceWire

  datatype PresenceError = Malformed

  /** A last-write-wins cell; a deletion is a cell without a value. */
  datatype Cell = Cell(value: Option<Value>, timestamp: int)

  type Store = map<string, Cell>

  /** The store keeps the later write, and what it has on a tie. */
  function Merge(store: Store, es: seq<Entry>): Store
    decreases |es|
  {
    if es == [] then store else Merge(MergeOne(store, es[0]), es[1..])
  }

  function MergeOne(store: Store, e: Entry): Store {
    if e.key in store && store[e.key].timestamp >= e.timestamp then store
    else store[e.key := Cell(e.value, e.timestamp)]
  }

  function Filter(es: seq<Entry>, allowed: string -> bool): (kept: seq<Entry>)
    ensures |kept| <= |es| && forall e | e in kept :: e in es && allowed(e.key)
    ensures |kept| == |es| ==> kept == es
  {
    if es == [] then []
    else if allowed(es[0].key) then [es[0]] + Filter(es[1..], allowed)
    else Filter(es[1..], allowed)
  }

  function ByKey(allowed: string -> bool): Entry -> bool {
    (e: Entry) => allowed(e.key)
  }

  /** Filtering keeps all that is allowed, as often as it comes and in order. */
  lemma {:induction false} FilterSelects(es: seq<Entry>, allowed: string -> bool) returns (at: seq<nat>)
    ensures Selects(es, ByKey(allowed), Filter(es, allowed), at)
  {
    at := [];
    if es != [] {
      at := FilterSelects(es[1..], allowed);
      SelectsCons(es[0], es[1..], ByKey(allowed), Filter(es[1..], allowed), at);
      assert es == [es[0]] + es[1..];
      at := if allowed(es[0].key) then [0] + Shift(at) else Shift(at);
    }
  }

  /** `key` is `owner` itself or lies under `owner/`. */
  predicate OwnsKey(owner: string, key: string) {
    key == owner || (owner <= key && |key| > |owner| && key[|owner|] == '/')
  }

  /** The host, named by no owner, may carry every key. */
  predicate MayWrite(owner: Option<string>, key: string) {
    owner.None? || OwnsKey(owner.value, key)
  }

  function Allowed(owner: Option<string>): string -> bool {
    key => MayWrite(owner, key)
  }

  /** A key up to its first slash. */
  function Namespace(key: string): string {
    if key == [] || key[0] == '/' then [] else [key[0]] + Namespace(key[1..])
  }

  /** A slash-free owner owns exactly the keys of its own namespace. */
  lemma {:induction false} OwnerIsNamespace(owner: string, key: string)
    requires '/' !in owner
    ensures OwnsKey(owner, key) <==> Namespace(key) == owner
  {
    if owner != [] && key != [] && key[0] == owner[0] {
      assert key == [key[0]] + key[1..] && owner == [owner[0]] + owner[1..];
      assert OwnsKey(owner, key) <==> OwnsKey(owner[1..], key[1..]);
      OwnerIsNamespace(owner[1..], key[1..]);
    }
  }

  class Presence {
    var store: Store

    constructor ()
      ensures store == map[]
    {
      store := map[];
    }

    /** The store's own import of an encoded update. */
    method Apply(bytes: seq<byte>) returns (ok: bool)
      modifies this
      ensures ok == FromBytes(bytes).Some?
      ensures store == if ok then Merge(old(store), FromBytes(bytes).value) else old(store)
    {
      var entries := FromBytes(bytes);
      ok := entries.Some?;
      if ok {
        store := Merge(store, entries.value);
      }
    }

    /**
     Apply a peer's update, keeping only entries whose key is allowed: `kept` is
     all of those and no other, in order. What is handed back for relay decodes to
     exactly these entries, and is the update as it came if nothing was dropped.
     */
    method ApplyFrom(bytes: seq<byte>, allowed: string -> bool)
      returns (r: Result<Option<seq<byte>>, PresenceError>, ghost kept: seq<Entry>, ghost at: seq<nat>)
      modifies this
      ensures FromBytes(bytes).None? ==> r == Err(Malformed) && store == old(store)
      ensures FromBytes(bytes).Some? ==>
        && Selects(FromBytes(bytes).value, ByKey(allowed), kept, at)
        && r.Ok?
        && store == Merge(old(store), kept)
        && (kept == [] <==> r.value.None?)
        && (kept != [] ==> FromBytes(r.value.value) == Some(kept))
        && (kept != [] && |kept| == |FromBytes(bytes).value| ==> r.value == Some(bytes))
        && kept == KeptOf(bytes, allowed) && r.value == Relay(bytes, allowed)
    {
      kept, at := [], [];
      var entries := FromBytes(bytes);
      if entries.None? {
        return Err(Malformed), kept, at;
      }
      var total := |entries.value|;
      var passed := Filter(entries.value, allowed);
      kept := passed;
      at := FilterSelects(entries.value, allowed);
      if passed == [] {
        return Ok(None), kept, at;
      }
      var sane := if |passed| == total then bytes else ToBytes(passed);
      FilteredDecodes(bytes, allowed);
      var ok := Apply(sane);
      r := Ok(Some(sane));
    }

    /** The same with the ownership rule: the host's entries are all kept, an owner's if they are its own. */
    method ApplyOwned(bytes: seq<byte>, owner: Option<string>)
      returns (r: Result<Option<seq<byte>>, PresenceError>, ghost kept: seq<Entry>, ghost at: seq<nat>)
      modifies this
      ensures FromBytes(bytes).None? ==> r == Err(Malformed) && store == old(store)
      ensures FromBytes(bytes).Some? ==>
        && Selects(FromBytes(bytes).value, Owned(owner), kept, at)
        && store == Merge(old(store), kept)
        && (kept == [] <==> r == Ok(None))
        && kept == Kept(bytes, owner) && r == Ok(Sane(bytes, owner))
    {
      hide Merge, FromBytes, Selects, Filter;
      r, kept, at := ApplyFrom(bytes, Allowed(owner));
      OwnedSame(owner);
      if FromBytes(bytes).Some? {
        SelectsSame(FromBytes(bytes).value, ByKey(Allowed(owner)), Owned(owner), kept, at);
      }
    }
  }

  /** No owner owns every entry; an owner those at its own name and under it. */
  function Owned(owner: Option<string>): Entry -> bool {
    (e: Entry) => owner.None? || e.key == owner.value || owner.value + "/" <= e.key
  }

  lemma OwnedSame(owner: Option<string>)
    ensures forall e :: ByKey(Allowed(owner))(e) == Owned(owner)(e)
  {
    forall e: Entry ensures ByKey(Allowed(owner))(e) == Owned(owner)(e) {
      assert ByKey(Allowed(owner))(e) == Allowed(owner)(e.key) == MayWrite(owner, e.key);
      if owner.Some? {
        OwnsByPrefix(owner.value, e.key);
        assert MayWrite(owner, e.key) == OwnsKey(owner.value, e.key);
        assert Owned(owner)(e) == (e.key == owner.value || owner.value + "/" <= e.key);
      } else {
        assert Owned(owner)(e);
      }
    }
  }

  lemma OwnsByPrefix(owner: string, key: string)
    ensures OwnsKey(owner, key) <==> key == owner || owner + "/" <= key
  {
    var under := owner + "/";
    if owner <= key && |key| > |owner| && key[|owner|] == '/' {
      assert key[..|under|] == under;
    }
    if under <= key {
      assert key[|owner|] == under[|owner|] && key[..|owner|] == under[..|owner|] == owner;
    }
  }

  lemma SelectsSame(es: seq<Entry>, ok: Entry -> bool, ok': Entry -> bool, kept: seq<Entry>, at: seq<nat>)
    requires Selects(es, ok, kept, at) && forall e :: ok(e) == ok'(e)
    ensures Selects(es, ok', kept, at)
  {
  }

  /** What of an update's entries is kept; nothing if it is malformed. */
  function KeptOf(bytes: seq<byte>, allowed: string -> bool): seq<Entry> {
    match FromBytes(bytes) case None => [] case Some(es) => Filter(es, allowed)
  }

  /** The bytes handed on for relay: as they came if nothing was dropped, else re-encoded. */
  function Relay(bytes: seq<byte>, allowed: string -> bool): Option<seq<byte>> {
    var kept := KeptOf(bytes, allowed);
    if kept == [] then None
    else if |kept| == |FromBytes(bytes).value| then Some(bytes)
    else Some(ToBytes(kept))
  }

  /** The entries of an update that `owner` may write. */
  function Kept(bytes: seq<byte>, owner: Option<string>): seq<Entry> {
    KeptOf(bytes, Allowed(owner))
  }

  function Sane(bytes: seq<byte>, owner: Option<string>): Option<seq<byte>> {
    Relay(bytes, Allowed(owner))
  }

  lemma {:induction false} FilteredDecodes(bytes: seq<byte>, allowed: string -> bool)
    requires FromBytes(bytes).Some?
    ensures var es := FromBytes(bytes).value;
      var kept := Filter(es, allowed);
      FromBytes(if |kept| == |es| then bytes else ToBytes(kept)) == Some(kept)
  {
    DecodedEntriesFit(bytes);
    var kept := Filter(FromBytes(bytes).value, allowed);
    PresenceRoundTrip(kept, []);
    assert ToBytes(kept) + [] == ToBytes(kept);
  }

  /** What is relayed decodes to what was kept, and that is all the sender may write, in order, and nothing else. */
  lemma {:induction false} SaneIsOwned(bytes: seq<byte>, owner: Option<string>) returns (at: seq<nat>)
    requires FromBytes(bytes).Some?
    ensures Selects(FromBytes(bytes).value, Owned(owner), Kept(bytes, owner), at)
    ensures Sane(bytes, owner).Some? <==> Kept(bytes, owner) != []
    ensures Sane(bytes, owner).Some? ==> FromBytes(Sane(bytes, owner).value) == Some(Kept(bytes, owner))
    ensures forall e | e in Kept(bytes, owner) :: MayWrite(owner, e.key) && e in FromBytes(bytes).value
  {
    hide Merge, FromBytes, Selects, MayWrite;
    FilteredDecodes(bytes, Allowed(owner));
    OwnedSame(owner);
    at := FilterSelects(FromBytes(bytes).value, Allowed(owner));
    SelectsSame(FromBytes(bytes).value, ByKey(Allowed(owner)), Owned(owner), Kept(bytes, owner), at);
  }

  /** Merging adds no key but those of the entries merged. */
  lemma {:induction false} MergeKeys(store: Store, es: seq<Entry>)
    ensures Merge(store, es).Keys <= store.Keys + set e | e in es :: e.key
    ensures store.Keys <= Merge(store, es).Keys
    decreases |es|
  {
    if es != [] {
      MergeKeys(MergeOne(store, es[0]), es[1..]);
      assert es[0] in es && forall x | x in es[1..] :: x in es;
    }
  }

  // ---- the latest write wins ----

  /** `c` is what the store has at `key`, or one of the entries for it. */
  ghost predicate ComesFrom(store: Store, es: seq<Entry>, key: string, c: Cell) {
    || (key in store && store[key] == c)
    || exists e :: e in es && e.key == key && c == Cell(e.value, e.timestamp)
  }

  /** A key is there if it was or an entry has it; its cell is one of those written, and none of them is later. */
  lemma {:induction false} LatestWins(store: Store, es: seq<Entry>, key: string)
    ensures key in Merge(store, es) <==> key in store || exists e :: e in es && e.key == key
    ensures key in Merge(store, es) ==> ComesFrom(store, es, key, Merge(store, es)[key])
    ensures key in store ==> store[key].timestamp <= Merge(store, es)[key].timestamp
    ensures forall e | e in es && e.key == key :: e.timestamp <= Merge(store, es)[key].timestamp
    decreases |es|
  {
    if es != [] {
      var one := MergeOne(store, es[0]);
      LatestWins(one, es[1..], key);
      assert forall x :: x in es <==> x == es[0] || x in es[1..];
      if key in Merge(store, es) {
        var c := Merge(store, es)[key];
        assert ComesFrom(one, es[1..], key, c);
        if key in one && one[key] == c && !(key in store && store[key] == c) {
          assert es[0].key == key && c == Cell(es[0].value, es[0].timestamp);
        }
      }
    }
  }

  /** Two writes of one key at one time say the same. */
  ghost predicate NoTies(store: Store, es: seq<Entry>) {
    forall key, c, d | ComesFrom(store, es, key, c) && ComesFrom(store, es, key, d) ::
      c.timestamp == d.timestamp ==> c == d
  }

  /** Up to ties, stores that merged the same entries in any order, and however often, agree. */
  lemma MergeOrderDoesNotMatter(store: Store, es: seq<Entry>, fs: seq<Entry>)
    requires (forall e :: e in es <==> e in fs) && NoTies(store, es)
    ensures Merge(store, es) == Merge(store, fs)
  {
    forall key ensures key in Merge(store, es) <==> key in Merge(store, fs)
      ensures key in Merge(store, es) ==> Merge(store, es)[key] == Merge(store, fs)[key]
    {
      LatestWins(store, es, key);
      LatestWins(store, fs, key);
      if key in Merge(store, es) {
        var c, d := Merge(store, es)[key], Merge(store, fs)[key];
        assert ComesFrom(store, es, key, d) && ComesFrom(store, fs, key, c);
        assert c.timestamp == d.timestamp;
      }
    }
  }
}
