/**
 A file's text as a replicated sequence: every character ever inserted, in the
 order the replicas agree on, stamped with the local frontier at which it
 appeared and, if it was deleted, the one at which it went.
 */
module SharedText {
  import opened Wrappers

  datatype Elem = Elem(ch: char, born: nat, died: Option<nat>)

  type Text = seq<Elem>

  predicate AliveAt(e: Elem, f: nat) {
    e.born <= f && (e.died.None? || e.died.value > f)
  }

  /** What a reader sees. */
  function Visible(t: Text): string {
    if t == [] then []
    else if t[0].died.None? then [t[0].ch] + Visible(t[1..])
    else Visible(t[1..])
  }

  /** What a reader saw at frontier `f`. */
  function TextAt(t: Text, f: nat): string {
    if t == [] then []
    else if AliveAt(t[0], f) then [t[0].ch] + TextAt(t[1..], f)
    else TextAt(t[1..], f)
  }

  /** Nothing in `t` is stamped after `f`. */
  ghost predicate UpTo(t: Text, f: nat) {
    forall e | e in t :: e.born <= f && (e.died.Some? ==> e.died.value <= f)
  }

  // ---- edit scripts ----

  datatype Edit = Keep | Drop | Put(ch: char)

  /** What a script turns `s` into, if it fits. */
  function Patch(script: seq<Edit>, s: string): Option<string> {
    if script == [] then (if s == [] then Some([]) else None)
    else if script[0].Put? then
      match Patch(script[1..], s) case None => None case Some(r) => Some([script[0].ch] + r)
    else if s == [] then None
    else
      match Patch(script[1..], s[1..])
      case None => None
      case Some(r) => Some(if script[0].Keep? then [s[0]] + r else r)
  }

  function Puts(text: string): seq<Edit> {
    if text == [] then [] else [Put(text[0])] + Puts(text[1..])
  }

  /** One way to turn `a` into `b`; the text library may choose another. */
  function Diff(a: string, b: string): seq<Edit> {
    if a == [] then Puts(b)
    else if b != [] && a[0] == b[0] then [Keep] + Diff(a[1..], b[1..])
    else [Drop] + Diff(a[1..], b)
  }

  lemma {:induction false} DiffPatches(a: string, b: string)
    ensures Patch(Diff(a, b), a) == Some(b)
    ensures a == b ==> forall k | 0 <= k < |Diff(a, b)| :: Diff(a, b)[k] == Keep
  {
    if a == [] {
      PutsPatch(b);
    } else if b != [] && a[0] == b[0] {
      DiffPatches(a[1..], b[1..]);
      assert b == [b[0]] + b[1..];
    } else {
      DiffPatches(a[1..], b);
    }
  }

  lemma {:induction false} PutsPatch(b: string)
    ensures Patch(Puts(b), []) == Some(b)
  {
    if b != [] {
      PutsPatch(b[1..]);
      assert b == [b[0]] + b[1..];
    }
  }

  // ---- merging a script made at `f` into the live text ----

  function Kill(e: Elem, now: nat): Elem {
    if e.died.None? then e.(died := Some(now)) else e
  }

  /**
   `out` is `live` after a script against its state at `f` is merged in at
   `now`. Insertions land somewhere between their neighbours of frontier `f`;
   where exactly among what others put there is left open.
   */
  ghost predicate Merged(live: Text, f: nat, script: seq<Edit>, now: nat, out: Text)
    decreases |live| + |script|
  {
    || (live == [] && script == [] && out == [])
    || (out != [] && script != [] && script[0].Put? && out[0] == Elem(script[0].ch, now, None)
        && Merged(live, f, script[1..], now, out[1..]))
    || (out != [] && live != [] && !AliveAt(live[0], f) && out[0] == live[0]
        && Merged(live[1..], f, script, now, out[1..]))
    || (out != [] && live != [] && AliveAt(live[0], f) && script != [] && !script[0].Put?
        && out[0] == (if script[0].Keep? then live[0] else Kill(live[0], now))
        && Merged(live[1..], f, script[1..], now, out[1..]))
  }

  /** The merge that puts each insertion as early as it may go. */
  function Merge(live: Text, f: nat, script: seq<Edit>, now: nat): Text
    decreases |live| + |script|
  {
    if script != [] && script[0].Put? then [Elem(script[0].ch, now, None)] + Merge(live, f, script[1..], now)
    else if live == [] then []
    else if !AliveAt(live[0], f) then [live[0]] + Merge(live[1..], f, script, now)
    else if script == [] then [live[0]] + Merge(live[1..], f, [], now)
    else [if script[0].Keep? then live[0] else Kill(live[0], now)] + Merge(live[1..], f, script[1..], now)
  }

  lemma {:induction false} MergeMerges(live: Text, f: nat, script: seq<Edit>, now: nat)
    requires Patch(script, TextAt(live, f)).Some?
    ensures Merged(live, f, script, now, Merge(live, f, script, now))
    decreases |live| + |script|
  {
    if script != [] && script[0].Put? {
      MergeMerges(live, f, script[1..], now);
    } else if live != [] {
      if !AliveAt(live[0], f) {
        MergeMerges(live[1..], f, script, now);
      } else {
        assert TextAt(live, f)[1..] == TextAt(live[1..], f);
        MergeMerges(live[1..], f, script[1..], now);
      }
    }
  }

  /** The characters that were in `t` before `now`. */
  function Before(t: Text, now: nat): Text {
    if t == [] then []
    else if t[0].born < now then [t[0]] + Before(t[1..], now)
    else Before(t[1..], now)
  }

  /** What is seen of the characters from frontier `f` and of those put in at `now`. */
  function SeenOf(t: Text, f: nat, now: nat): string {
    if t == [] then []
    else if t[0].died.None? && (t[0].born <= f || t[0].born == now) then [t[0].ch] + SeenOf(t[1..], f, now)
    else SeenOf(t[1..], f, now)
  }

  /** What a script makes of the characters alive at `f`, less those deleted since. */
  function PatchLive(script: seq<Edit>, live: Text, f: nat): string
    decreases |live| + |script|
  {
    if script != [] && script[0].Put? then [script[0].ch] + PatchLive(script[1..], live, f)
    else if live == [] then []
    else if !AliveAt(live[0], f) then PatchLive(script, live[1..], f)
    else if script == [] then []
    else if script[0].Keep? && live[0].died.None? then [live[0].ch] + PatchLive(script[1..], live[1..], f)
    else PatchLive(script[1..], live[1..], f)
  }

  /**
   Concurrent edits survive. Every character of the live text is still there,
   in order, and was deleted only if the script dropped it from frontier `f`.
   */
  lemma {:induction false} MergeKeepsOthers(live: Text, f: nat, script: seq<Edit>, now: nat, out: Text)
    requires Merged(live, f, script, now, out) && forall e | e in live :: e.born < now
    ensures |Before(out, now)| == |live|
    ensures forall i | 0 <= i < |live| ::
      Before(out, now)[i] == live[i] || (AliveAt(live[i], f) && Before(out, now)[i] == Kill(live[i], now))
    ensures forall i | 0 <= i < |live| && live[i].born > f :: Before(out, now)[i] == live[i]
    decreases |live| + |script|
  {
    if out != [] && script != [] && script[0].Put? && out[0] == Elem(script[0].ch, now, None)
       && Merged(live, f, script[1..], now, out[1..]) {
      MergeKeepsOthers(live, f, script[1..], now, out[1..]);
    } else if live != [] {
      var used := if !AliveAt(live[0], f) then script else script[1..];
      MergeKeepsOthers(live[1..], f, used, now, out[1..]);
      assert out[0].born == live[0].born;
      assert Before(out, now) == [out[0]] + Before(out[1..], now);
    }
  }

  /**
   The script's own result is there: what is seen of the old and the new
   characters is what the script makes of frontier `f`, less what others
   deleted meanwhile.
   */
  lemma {:induction false} MergeShowsEdit(live: Text, f: nat, script: seq<Edit>, now: nat, out: Text)
    requires Merged(live, f, script, now, out) && f < now
    requires forall e | e in live :: e.born < now && (e.died.Some? ==> e.died.value < now)
    ensures SeenOf(out, f, now) == PatchLive(script, live, f)
    decreases |live| + |script|
  {
    if out != [] && script != [] && script[0].Put? && out[0] == Elem(script[0].ch, now, None)
       && Merged(live, f, script[1..], now, out[1..]) {
      MergeShowsEdit(live, f, script[1..], now, out[1..]);
    } else if live != [] {
      if !AliveAt(live[0], f) {
        MergeShowsEdit(live[1..], f, script, now, out[1..]);
        PatchLivePasses(script, live, f);
      } else {
        MergeShowsEdit(live[1..], f, script[1..], now, out[1..]);
      }
    }
  }

  /** A character that was not there at `f` takes no part in the patch. */
  lemma {:induction false} PatchLivePasses(script: seq<Edit>, live: Text, f: nat)
    requires live != [] && !AliveAt(live[0], f)
    ensures PatchLive(script, live, f) == PatchLive(script, live[1..], f)
    decreases |script|
  {
    if script != [] && script[0].Put? {
      PatchLivePasses(script[1..], live, f);
    }
  }

  lemma {:induction false} PatchLiveIsPatch(script: seq<Edit>, live: Text, f: nat)
    requires Patch(script, TextAt(live, f)).Some?
    requires forall e | e in live && AliveAt(e, f) :: e.died.None?
    ensures Patch(script, TextAt(live, f)) == Some(PatchLive(script, live, f))
    decreases |live| + |script|
  {
    if script != [] && script[0].Put? {
      PatchLiveIsPatch(script[1..], live, f);
    } else if live != [] {
      if !AliveAt(live[0], f) {
        PatchLiveIsPatch(script, live[1..], f);
      } else {
        assert live[0] in live && TextAt(live, f)[1..] == TextAt(live[1..], f);
        PatchLiveIsPatch(script[1..], live[1..], f);
      }
    }
  }

  /** If others only inserted since `f`, leaving their insertions out shows exactly `text`. */
  lemma {:induction false} MergeShowsText(live: Text, f: nat, script: seq<Edit>, now: nat, out: Text)
    requires Merged(live, f, script, now, out) && f < now
    requires forall e | e in live :: e.born < now && (e.died.Some? ==> e.died.value < now)
    requires Patch(script, TextAt(live, f)).Some?
    requires forall e | e in live && AliveAt(e, f) :: e.died.None?
    ensures Patch(script, TextAt(live, f)) == Some(SeenOf(out, f, now))
  {
    MergeShowsEdit(live, f, script, now, out);
    PatchLiveIsPatch(script, live, f);
  }

  lemma {:induction false} SeenIsAll(t: Text, f: nat, now: nat)
    requires forall e | e in t && e.died.None? :: e.born <= f || e.born == now
    ensures SeenOf(t, f, now) == Visible(t)
  {
    if t != [] {
      assert t[0] in t;
      SeenIsAll(t[1..], f, now);
    }
  }

  lemma {:induction false} MergedElems(live: Text, f: nat, script: seq<Edit>, now: nat, out: Text)
    requires Merged(live, f, script, now, out)
    ensures forall e | e in out ::
      e in live || e == Elem(e.ch, now, None) || exists x :: x in live && AliveAt(x, f) && e == Kill(x, now)
    decreases |live| + |script|
  {
    if out != [] && script != [] && script[0].Put? && out[0] == Elem(script[0].ch, now, None)
       && Merged(live, f, script[1..], now, out[1..]) {
      MergedElems(live, f, script[1..], now, out[1..]);
    } else if live != [] {
      MergedElems(live[1..], f, if !AliveAt(live[0], f) then script else script[1..], now, out[1..]);
      assert live[0] in live;
      assert AliveAt(live[0], f) || out[0] == live[0];
    }
  }

  /** With nothing landed since `f`, the merge shows exactly what the script makes. */
  lemma {:induction false} MergeExact(live: Text, f: nat, script: seq<Edit>, now: nat, out: Text)
    requires Merged(live, f, script, now, out) && f < now
    requires UpTo(live, f) && Patch(script, TextAt(live, f)).Some?
    ensures Patch(script, TextAt(live, f)) == Some(Visible(out))
    ensures TextAt(live, f) == Visible(live)
  {
    MergeShowsText(live, f, script, now, out);
    MergedElems(live, f, script, now, out);
    SeenIsAll(out, f, now);
    NowIsVisible(live, f);
  }

  lemma {:induction false} NowIsVisible(t: Text, f: nat)
    requires UpTo(t, f)
    ensures TextAt(t, f) == Visible(t)
  {
    if t != [] {
      assert t[0] in t;
      NowIsVisible(t[1..], f);
    }
  }

  /** A merge at `now` rewrites no earlier frontier. */
  lemma {:induction false} MergeKeepsPast(live: Text, f: nat, script: seq<Edit>, now: nat, out: Text, g: nat)
    requires Merged(live, f, script, now, out) && g < now
    ensures TextAt(out, g) == TextAt(live, g)
    decreases |live| + |script|
  {
    if out != [] && script != [] && script[0].Put? && out[0] == Elem(script[0].ch, now, None)
       && Merged(live, f, script[1..], now, out[1..]) {
      MergeKeepsPast(live, f, script[1..], now, out[1..], g);
    } else if live != [] {
      MergeKeepsPast(live[1..], f, if !AliveAt(live[0], f) then script else script[1..], now, out[1..], g);
    }
  }

  /** A script that only keeps changes nothing. */
  lemma {:induction false} KeepingIsNoOp(live: Text, f: nat, script: seq<Edit>, now: nat)
    requires forall k | 0 <= k < |script| :: script[k] == Keep
    ensures Merge(live, f, script, now) == live
    decreases |live| + |script|
  {
    if live != [] {
      KeepingIsNoOp(live[1..], f, if AliveAt(live[0], f) && script != [] then script[1..] else script, now);
    }
  }

  // ---- when a merge deletes what is seen ----

  /** `a` is `b` with some characters left out. */
  predicate IsPart(a: string, b: string) {
    a == [] || (b != [] && ((a[0] == b[0] && IsPart(a[1..], b[1..])) || IsPart(a, b[1..])))
  }

  lemma {:induction false} PartIsShorter(a: string, b: string)
    requires IsPart(a, b)
    ensures |a| <= |b| && (|a| == |b| ==> a == b)
  {
    if a != [] {
      if a[0] == b[0] && IsPart(a[1..], b[1..]) {
        PartIsShorter(a[1..], b[1..]);
      } else {
        PartIsShorter(a, b[1..]);
      }
    }
  }

  lemma {:induction false} SelfIsPart(a: string)
    ensures IsPart(a, a)
  {
    if a != [] {
      SelfIsPart(a[1..]);
    }
  }

  /** Nobody deleted, since frontier `f`, what was visible at it. */
  ghost predicate NoneDeleted(live: Text, f: nat) {
    forall e | e in live && AliveAt(e, f) :: e.died.None?
  }

  /** Some character that was seen in `live` is deleted in `out`. */
  ghost predicate Deletes(live: Text, out: Text, now: nat) {
    exists i :: 0 <= i < |live| && i < |Before(out, now)| && live[i].died.None? && Before(out, now)[i].died.Some?
  }

  /** A script that shortens a text must drop something. */
  lemma {:induction false} ShorteningDrops(script: seq<Edit>, s: string)
    requires Patch(script, s).Some? && |Patch(script, s).value| < |s|
    ensures Drop in script
  {
    if Drop !in script {
      NotDroppingKeeps(script, s);
    }
  }

  lemma {:induction false} NotDroppingKeeps(script: seq<Edit>, s: string)
    requires Patch(script, s).Some? && Drop !in script
    ensures |Patch(script, s).value| >= |s|
  {
    if script != [] {
      assert script[0] in script && forall e | e in script[1..] :: e in script;
      NotDroppingKeeps(script[1..], if script[0].Put? then s else s[1..]);
    }
  }

  lemma {:induction false} DropDeletes(live: Text, f: nat, script: seq<Edit>, now: nat, out: Text)
    requires Merged(live, f, script, now, out) && Drop in script && NoneDeleted(live, f)
    requires forall e | e in live :: e.born < now
    ensures Deletes(live, out, now)
    decreases |live| + |script|
  {
    if out != [] && script != [] && script[0].Put? && out[0] == Elem(script[0].ch, now, None)
       && Merged(live, f, script[1..], now, out[1..]) {
      DropDeletes(live, f, script[1..], now, out[1..]);
      assert Before(out, now) == Before(out[1..], now);
    } else {
      var passed := !AliveAt(live[0], f);
      assert live[0] in live && out[0].born == live[0].born;
      assert Before(out, now) == [out[0]] + Before(out[1..], now);
      if !passed && script[0].Drop? {
        assert live[0].died.None? && Before(out, now)[0].died.Some?;
      } else {
        DropDeletes(live[1..], f, if passed then script else script[1..], now, out[1..]);
        var i :| 0 <= i < |live[1..]| && i < |Before(out[1..], now)|
          && live[1..][i].died.None? && Before(out[1..], now)[i].died.Some?;
        assert live[i + 1] == live[1..][i] && Before(out, now)[i + 1] == Before(out[1..], now)[i];
      }
    }
  }

  lemma {:induction false} BeforeAll(t: Text, now: nat)
    requires forall e | e in t :: e.born < now
    ensures Before(t, now) == t
  {
    if t != [] {
      assert t[0] in t;
      BeforeAll(t[1..], now);
    }
  }

  lemma {:induction false} SeenIsPast(t: Text, f: nat, now: nat)
    requires NoneDeleted(t, f) && f < now && forall e | e in t :: e.born < now
    ensures SeenOf(t, f, now) == TextAt(t, f)
  {
    if t != [] {
      assert t[0] in t;
      SeenIsPast(t[1..], f, now);
    }
  }

  lemma {:induction false} SeenIsPart(t: Text, f: nat, now: nat)
    ensures IsPart(SeenOf(t, f, now), Visible(t))
    ensures SeenOf(t, f, now) == Visible(t) <==> forall e | e in t && e.died.None? :: e.born <= f || e.born == now
  {
    if t != [] {
      SeenIsPart(t[1..], f, now);
      PartIsShorter(SeenOf(t[1..], f, now), Visible(t[1..]));
      assert t[0] in t;
    }
  }
}
