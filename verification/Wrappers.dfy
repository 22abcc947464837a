/** Bytes, and the result and option types shared by every module. */
module Wrappers {
  type byte = x: int | 0 <= x < 0x100

  const U32_END: nat := 0x1_0000_0000

  datatype Option<+T> = None | Some(value: T)

  datatype Result<+T, +E> = Ok(value: T) | Err(error: E)

  /** `part` is what `ok` holds of in `all`, as often and in that order: `at` says where each element comes from. */
  ghost predicate Selects<T(!new)>(all: seq<T>, ok: T -> bool, part: seq<T>, at: seq<nat>) {
    && |at| == |part|
    && (forall k | 0 <= k < |at| :: at[k] < |all| && part[k] == all[at[k]])
    && (forall j, k | 0 <= j < k < |at| :: at[j] < at[k])
    && (forall i: nat | i < |all| :: i in at <==> ok(all[i]))
  }

  function Shift(at: seq<nat>): seq<nat> {
    seq(|at|, k requires 0 <= k < |at| => at[k] + 1)
  }

  lemma ShiftHolds(at: seq<nat>, i: nat)
    ensures i in Shift(at) <==> i > 0 && i - 1 in at
  {
    if i > 0 && i - 1 in at {
      var k :| 0 <= k < |at| && at[k] == i - 1;
      assert Shift(at)[k] == i;
    }
  }

  /** One more element in front, passed over ... */
  lemma SelectsPast<T(!new)>(x: T, all: seq<T>, ok: T -> bool, part: seq<T>, at: seq<nat>)
    requires Selects(all, ok, part, at) && !ok(x)
    ensures Selects([x] + all, ok, part, Shift(at))
  {
    var more, up := [x] + all, Shift(at);
    forall k | 0 <= k < |up| ensures up[k] < |more| && part[k] == more[up[k]] {
      assert more[at[k] + 1] == all[at[k]];
    }
    forall i: nat | i < |more| ensures i in up <==> ok(more[i]) {
      ShiftHolds(at, i);
      assert i > 0 ==> more[i] == all[i - 1];
    }
  }

  /** ... or taken. */
  lemma SelectsFirst<T(!new)>(x: T, all: seq<T>, ok: T -> bool, part: seq<T>, at: seq<nat>)
    requires Selects(all, ok, part, at) && ok(x)
    ensures Selects([x] + all, ok, [x] + part, [0] + Shift(at))
  {
    var more, taken, up := [x] + all, [x] + part, [0] + Shift(at);
    forall k | 0 <= k < |up| ensures up[k] < |more| && taken[k] == more[up[k]] {
      if k > 0 {
        assert more[at[k - 1] + 1] == all[at[k - 1]];
      }
    }
    forall i: nat | i < |more| ensures i in up <==> ok(more[i]) {
      ShiftHolds(at, i);
      assert i in up <==> i == 0 || i in Shift(at);
      assert i > 0 ==> more[i] == all[i - 1];
    }
  }

  /** Either, as the case may be. */
  lemma SelectsCons<T(!new)>(x: T, all: seq<T>, ok: T -> bool, part: seq<T>, at: seq<nat>)
    requires Selects(all, ok, part, at)
    ensures ok(x) ==> Selects([x] + all, ok, [x] + part, [0] + Shift(at))
    ensures !ok(x) ==> Selects([x] + all, ok, part, Shift(at))
  {
    hide Selects;
    if ok(x) {
      SelectsFirst(x, all, ok, part, at);
    } else {
      SelectsPast(x, all, ok, part, at);
    }
  }
}
