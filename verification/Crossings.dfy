/**
 Where the base of a path comes from over a run, and what the next ingest does
 with it. The base is the frontier of the last crossing: the last egress that
 wrote the path or ingest that reported it. An ingest moves the base even when
 its merge leaves the doc's text different from the bytes on disk.
 */
module Crossings {
  import opened Wrappers
  import opened Utf8
  import opened SharedText
  import opened FileTree
  import opened Docs
  import opened Workspaces
  import opened Exports
  import opened Seeding
  import opened Watching
  import opened Batches
  import opened BatchEffects
  import opened LiveLoops
  import opened LoopRuns

  // ---- what a merge does to the text of the base ----

  lemma {:induction false} BeforeIsWithin(t: Text, now: nat)
    ensures forall e | e in Before(t, now) :: e in t
  {
    if t != [] {
      BeforeIsWithin(t[1..], now);
    }
  }

  ghost predicate StampedBefore(t: Text, now: nat) {
    forall e | e in t :: e.born < now && (e.died.Some? ==> e.died.value < now)
  }

  /**
   With nobody having deleted what was visible at the base, a merge leaves the
   text alone exactly when disk says what the doc said at the base. If disk
   shows only part of that, the merge deletes something exactly when it shows less.
   */
  lemma MergeVerdict(live: Text, base: Frontier, text: string, now: nat, out: Text)
    requires MergedIn(live, base, text, now, out) && StampedBefore(live, now) && NoneDeleted(live, base)
    requires TextAt(live, base) == text ==> out == live
    ensures out == live <==> TextAt(live, base) == text
    ensures IsPart(text, TextAt(live, base)) ==> (Deletes(live, out, now) <==> TextAt(live, base) != text)
  {
    var was := TextAt(live, base);
    var script :| Patch(script, was) == Some(text) && Merged(live, base, script, now, out);
    MergeShowsText(live, base, script, now, out);
    SeenIsPast(live, base, now);
    BeforeAll(live, now);
    if IsPart(text, was) && text != was {
      PartIsShorter(text, was);
      ShorteningDrops(script, was);
      DropDeletes(live, base, script, now, out);
    }
  }

  /**
   When an ingest leaves the doc agreeing with disk: exactly when nothing that
   was put in since the base is visible. Otherwise the doc shows all that disk
   does, and more.
   */
  lemma IngestAgreesIf(live: Text, base: Frontier, text: string, now: nat, out: Text)
    requires MergedIn(live, base, text, now, out) && StampedBefore(live, now) && NoneDeleted(live, base)
    ensures Visible(out) == text <==> forall e | e in live && e.died.None? :: e.born <= base
    ensures IsPart(text, Visible(out))
  {
    var script :| Patch(script, TextAt(live, base)) == Some(text) && Merged(live, base, script, now, out);
    MergeShowsText(live, base, script, now, out);
    SeenIsPart(out, base, now);
    MergedElems(live, base, script, now, out);
    MergeKeepsOthers(live, base, script, now, out);
    BeforeIsWithin(out, now);
    forall e | e in live && e.died.None? && e.born > base ensures e in out {
      var i :| 0 <= i < |live| && live[i] == e;
      assert Before(out, now)[i] == e;
    }
    forall e | e in out && e.died.None? && e.born > base && e.born != now ensures e in live {
    }
    assert forall e | e in live :: e.born != now;
  }

  // ---- where the base of a path comes from ----

  /** The event brings disk and doc together at `p`, as far as it does, and records it. */
  ghost predicate Crosses(ign: Ignorer, e: Event, w: World, w': World, p: Path) {
    && w.history != [] && w'.history != []
    && match e
       case Egress => FileAt(Last(w.history), ign, p).Some?
       case Ingest(paths) => p in paths && p in w.files && NodeAt(Last(w'.history), p).Some?
       case _ => false
  }

  ghost predicate CrossesAt(ign: Ignorer, events: seq<Event>, worlds: seq<World>, p: Path, k: int) {
    0 <= k < |events| && |worlds| == |events| + 1 && Crosses(ign, events[k], worlds[k], worlds[k + 1], p)
  }

  /** The base of `p` is the present frontier and the node there. */
  ghost predicate SetHere(w: World, p: Path) {
    && w.history != [] && p in w.bases && NodeAt(Last(w.history), p).Some?
    && w.bases[p] == Base(|w.history| - 1, NodeAt(Last(w.history), p).value)
  }

  /** `worlds[j]` is the start or just after a crossing of `p`, and none follows up to `worlds[i]`. */
  ghost predicate LastSet(ign: Ignorer, events: seq<Event>, worlds: seq<World>, p: Path, j: nat, i: nat) {
    && j <= i < |worlds| == |events| + 1
    && (j == 0 || CrossesAt(ign, events, worlds, p, j - 1))
    && forall k | j <= k < i :: !CrossesAt(ign, events, worlds, p, k)
  }

  lemma BaseStep(ign: Ignorer, e: Event, w: World, w': World, p: Path)
    requires LoopStep(ign, e, w, w') && p in w'.bases
    ensures if Crosses(ign, e, w, w', p) then SetHere(w', p) else p in w.bases && w'.bases[p] == w.bases[p]
  {
    hide Tree.WellFormed, Stamped, Carries, GoodDisk, Run, Walk, IsEcho, FilesAfter, DirsAfter, Takeable, Writable,
      Skips;
    match e
    case Ingest(paths) =>
      var trace :| Ingested(w, w', paths, trace);
    case Egress =>
    case _ =>
  }

  /** Between two crossings the base of a path stays what it is, unless it is dropped. */
  lemma {:induction false} BaseKept(ign: Ignorer, events: seq<Event>, worlds: seq<World>, p: Path, j: nat, i: nat)
    requires LoopRun(ign, events, worlds) && j <= i < |worlds| && p in worlds[i].bases
    requires forall k | j <= k < i :: !CrossesAt(ign, events, worlds, p, k)
    ensures p in worlds[j].bases && worlds[i].bases[p] == worlds[j].bases[p]
    decreases i
  {
    hide LoopStep, GoodWorld, Crosses;
    if j < i {
      assert StepOf(ign, events, worlds, i - 1) && !CrossesAt(ign, events, worlds, p, i - 1);
      BaseStep(ign, events[i - 1], worlds[i - 1], worlds[i], p);
      BaseKept(ign, events, worlds, p, j, i - 1);
    }
  }

  lemma {:induction false} BaseWasSet(ign: Ignorer, events: seq<Event>, worlds: seq<World>, p: Path, i: nat)
    returns (j: nat)
    requires LoopRun(ign, events, worlds) && i < |worlds| && p in worlds[i].bases
    requires forall q | q in worlds[0].bases :: SetHere(worlds[0], q)
    ensures LastSet(ign, events, worlds, p, j, i) && SetHere(worlds[j], p) && worlds[i].bases[p] == worlds[j].bases[p]
    decreases i
  {
    hide LoopStep, GoodWorld, Crosses, SetHere;
    if i == 0 || CrossesAt(ign, events, worlds, p, i - 1) {
      j := i;
      if i > 0 {
        assert StepOf(ign, events, worlds, i - 1);
        BaseStep(ign, events[i - 1], worlds[i - 1], worlds[i], p);
      }
    } else {
      assert StepOf(ign, events, worlds, i - 1);
      BaseStep(ign, events[i - 1], worlds[i - 1], worlds[i], p);
      j := BaseWasSet(ign, events, worlds, p, i - 1);
    }
  }

  lemma SeededSetsHere(ign: Ignorer, w: World)
    requires GoodWorld(w)
    requires Seeded(Last(w.history), ign, w.files, w.dirs, |w.history| - 1, w.bases, w.kept)
    ensures forall q | q in w.bases :: SetHere(w, q) && FileAgrees(Last(w.history), ign, w.files, q)
  {
    hide Tree.WellFormed, Stamped, Carries, GoodDisk, Encode, Skips;
  }

  /**
   In every state of every run from where the loop starts, with what disk and doc
   agree on seeded, the base of a path is the frontier of the last egress that
   wrote it or ingest that reported it, or of the start, where the two agreed.
   */
  lemma BaseIsLastCrossing(ign: Ignorer, events: seq<Event>, worlds: seq<World>, p: Path, i: nat) returns (j: nat)
    requires LoopRun(ign, events, worlds) && i < |worlds| && p in worlds[i].bases
    requires var w := worlds[0];
      Seeded(Last(w.history), ign, w.files, w.dirs, |w.history| - 1, w.bases, w.kept)
    ensures LastSet(ign, events, worlds, p, j, i) && SetHere(worlds[j], p) && worlds[i].bases[p] == worlds[j].bases[p]
    ensures j == 0 ==> FileAgrees(Last(worlds[0].history), ign, worlds[0].files, p)
  {
    hide LoopStep, GoodHistory, GoodDisk, Crosses, SetHere, Seeded, FileAgrees;
    SeededSetsHere(ign, worlds[0]);
    j := BaseWasSet(ign, events, worlds, p, i);
    SetIsTracked(worlds[j], p);
  }

  lemma SetIsTracked(w: World, p: Path)
    requires SetHere(w, p)
    ensures p in w.bases
  {
  }

  lemma {:induction false} HistoryExtends(ign: Ignorer, events: seq<Event>, worlds: seq<World>, j: nat, i: nat)
    requires LoopRun(ign, events, worlds) && j <= i < |worlds|
    ensures worlds[j].history <= worlds[i].history
    decreases i
  {
    hide GoodWorld, GoodHistory, GoodDisk, Run, Advanced, FilesAfter, DirsAfter, Takeable, Writable;
    if j < i {
      HistoryExtends(ign, events, worlds, j, i - 1);
      assert StepOf(ign, events, worlds, i - 1);
    }
  }

  /** What the doc said at the last crossing is what the live text says of that frontier. */
  lemma CrossingInTip(ign: Ignorer, events: seq<Event>, worlds: seq<World>, p: Path, j: nat, i: nat, n: NodeId,
                      live: Text)
    requires LoopRun(ign, events, worlds) && LastSet(ign, events, worlds, p, j, i) && SetHere(worlds[j], p)
    requires p in worlds[i].bases && TextNow(Last(worlds[j].history), n).Some?
    requires worlds[i].history != [] && LiveAt(Last(worlds[i].history), p, n, live)
    ensures j <= i && worlds[i].bases[p].frontier == |worlds[j].history| - 1
    ensures ContentAt(worlds[i].history, n, |worlds[j].history| - 1).Some?
    ensures TextNow(Last(worlds[j].history), n) == Some(TextAt(live, |worlds[j].history| - 1))
    ensures StampedBefore(live, |worlds[i].history|) && |worlds[j].history| <= |worlds[i].history|
  {
    hide Tree.WellFormed, Carries, GoodDisk, LoopStep, Walk;
    var h, b := worlds[i].history, |worlds[j].history| - 1;
    AlwaysGood(ign, events, worlds, i);
    BaseKept(ign, events, worlds, p, j, i);
    HistoryExtends(ign, events, worlds, j, i);
    PastStays(worlds[j].history, h, n, b);
    PastInTip(h, worlds[i].next, n, b);
    assert Stamped(Last(h), |h| - 1, worlds[i].next);
  }

  /** What the ingest of `p` at event `i` makes of the live text, `b` being the frontier of the last crossing. */
  ghost predicate Verdict(live: Text, b: Frontier, text: string, now: nat, out: Text) {
    && |Before(out, now)| == |live|
    && (forall k | 0 <= k < |live| && live[k].born > b :: Before(out, now)[k] == live[k])
    && (forall k | 0 <= k < |live| && Before(out, now)[k] != live[k] :: AliveAt(live[k], b))
    && (NoneDeleted(live, b) ==>
          && (out == live <==> TextAt(live, b) == text || Visible(live) == text)
          && (IsPart(text, TextAt(live, b)) ==> (Deletes(live, out, now) <==> TextAt(live, b) != text)))
  }

  lemma VerdictOfNothing(live: Text, b: Frontier, now: nat)
    requires StampedBefore(live, now) && b < now
    ensures Verdict(live, b, Visible(live), now, live)
  {
    BeforeAll(live, now);
    if NoneDeleted(live, b) && IsPart(Visible(live), TextAt(live, b)) {
      SeenIsPast(live, b, now);
      SeenIsPart(live, b, now);
      PartIsShorter(TextAt(live, b), Visible(live));
      PartIsShorter(Visible(live), TextAt(live, b));
    }
  }

  lemma VerdictOfMerge(live: Text, b: Frontier, text: string, now: nat, out: Text)
    requires MergedIn(live, b, text, now, out) && StampedBefore(live, now) && Visible(live) != text
    requires TextAt(live, b) == text ==> out == live
    ensures Verdict(live, b, text, now, out)
  {
    IngestKeepsPeerEdits(live, b, text, now, out);
    if NoneDeleted(live, b) {
      MergeVerdict(live, b, text, now, out);
    }
  }

  /**
   Three-way merge over whole runs. At the next ingest of `p`, everything put in
   since the last crossing survives and only what the doc showed at that crossing
   can be deleted. With nobody having deleted any of that, the ingest leaves the
   doc alone exactly when disk says what the doc said then (or says now); and
   where disk shows part of that, it deletes something exactly when disk shows less.
   */
  lemma NextIngest(ign: Ignorer, events: seq<Event>, worlds: seq<World>, p: Path, j: nat, i: nat, n: NodeId, live: Text)
    returns (now: nat, out: Text)
    requires LoopRun(ign, events, worlds) && LastSet(ign, events, worlds, p, j, i) && SetHere(worlds[j], p)
    requires i < |events| && events[i].Ingest? && p in events[i].paths
    requires forall a, b | 0 <= a < b < |events[i].paths| :: events[i].paths[a] != events[i].paths[b]
    requires p in worlds[i].bases && p in worlds[i].files && Decode(worlds[i].files[p]).Some?
    requires worlds[i].history != [] && LiveAt(Last(worlds[i].history), p, n, live)
    requires TextNow(Last(worlds[j].history), n).Some?
    ensures worlds[i + 1].history != [] && LiveAt(Last(worlds[i + 1].history), p, n, out)
    ensures TextNow(Last(worlds[j].history), n) == Some(TextAt(live, |worlds[j].history| - 1))
    ensures Verdict(live, |worlds[j].history| - 1, Decode(worlds[i].files[p]).value, now, out)
  {
    hide Tree.WellFormed, Stamped, Carries, GoodDisk, Run, Walk, IsEcho, Encode, Decode, MergedIn, Advanced,
      LiveAt, Egressed, Verdict, SetHere, LastSet, StampedBefore;
    CrossingInTip(ign, events, worlds, p, j, i, n, live);
    AlwaysGood(ign, events, worlds, i);
    assert StepOf(ign, events, worlds, i);
    var w, w', paths, text := worlds[i], worlds[i + 1], events[i].paths, Decode(worlds[i].files[p]).value;
    var trace :| Ingested(w, w', paths, trace);
    var s := Source(w.files, w.dirs, w.bases);
    if Visible(live) == text {
      now, out := |w.history|, live;
      BatchLeavesAgreeing(s, paths, trace, p, n, live);
      VerdictOfNothing(live, |worlds[j].history| - 1, now);
    } else {
      var base;
      base, now, out := BatchMerges(s, paths, trace, p, n, live);
      LaterStamps(live, |w.history|, now);
      VerdictOfMerge(live, base, text, now, out);
    }
  }

  lemma LaterStamps(live: Text, now: nat, later: nat)
    requires StampedBefore(live, now) && now <= later
    ensures StampedBefore(live, later)
  {
  }

  /** Disk holds at `p` exactly what the doc says of `n`. */
  ghost predicate Agrees(w: World, p: Path, n: NodeId) {
    w.history != [] && p in w.files && TextNow(Last(w.history), n).Some?
    && w.files[p] == Encode(TextNow(Last(w.history), n).value)
  }

  /** An egress that writes a file leaves disk and doc agreeing on it. */
  lemma EgressAgrees(ign: Ignorer, w: World, w': World, p: Path)
    requires Egressed(ign, w, w') && FileAt(Last(w.history), ign, p).Some?
    requires TextNow(Last(w.history), FileAt(Last(w.history), ign, p).value).Some?
    ensures Agrees(w', p, FileAt(Last(w.history), ign, p).value) && SetHere(w', p)
  {
    hide Walk, IsEcho, Encode, Skips, DirsAfter;
  }

  /** An ingest that finds nothing put in since the base leaves them agreeing, and else it does not. */
  lemma IngestAgrees(w: World, w': World, paths: seq<Path>, trace: seq<DocState>, p: Path, n: NodeId, live: Text)
    returns (base: Frontier)
    requires GoodWorld(w) && Ingested(w, w', paths, trace)
    requires forall i, j | 0 <= i < j < |paths| :: paths[i] != paths[j]
    requires p in paths && p in w.files && Decode(w.files[p]).Some?
    requires LiveAt(Last(w.history), p, n, live) && Visible(live) != Decode(w.files[p]).value
    ensures BaseFor(w.history, w.bases, p, n, live, base)
    ensures NoneDeleted(live, base) ==>
      && (Agrees(w', p, n) <==> forall e | e in live && e.died.None? :: e.born <= base)
      && TextNow(Last(w'.history), n).Some?
      && IsPart(Decode(w.files[p]).value, TextNow(Last(w'.history), n).value)
  {
    hide Tree.WellFormed, Carries, GoodDisk, Run, Walk, IsEcho, Encode, Decode, MergedIn, Advanced;
    var now, out;
    base, now, out := BatchMerges(Source(w.files, w.dirs, w.bases), paths, trace, p, n, live);
    assert Stamped(Last(w.history), |w.history| - 1, w.next);
    if NoneDeleted(live, base) {
      IngestAgreesIf(live, base, Decode(w.files[p]).value, now, out);
      Utf8Codec(Decode(w.files[p]).value, w.files[p]);
      Utf8Codec(Visible(out), w.files[p]);
    }
  }

  /**
   What peers put in survives as long as it was shown. Let the file be as the last
   crossing left it, show no more than the doc said then, and nobody have deleted
   any of that since: the next ingest of `p` deletes a visible character if and
   only if the doc's text at that crossing was not what disk held. After an
   egress, `EgressAgrees` rules that out; after an ingest, `IngestAgrees` says when.
   */
  lemma SurvivesIfShown(ign: Ignorer, events: seq<Event>, worlds: seq<World>, p: Path, j: nat, i: nat, n: NodeId,
                        live: Text)
    returns (now: nat, out: Text)
    requires LoopRun(ign, events, worlds) && LastSet(ign, events, worlds, p, j, i) && SetHere(worlds[j], p)
    requires i < |events| && events[i].Ingest? && p in events[i].paths
    requires forall a, b | 0 <= a < b < |events[i].paths| :: events[i].paths[a] != events[i].paths[b]
    requires p in worlds[i].bases && p in worlds[i].files && Decode(worlds[i].files[p]).Some?
    requires worlds[i].history != [] && LiveAt(Last(worlds[i].history), p, n, live)
    requires TextNow(Last(worlds[j].history), n).Some?
    requires p in worlds[j].files && worlds[i].files[p] == worlds[j].files[p]
    requires NoneDeleted(live, |worlds[j].history| - 1)
    requires IsPart(Decode(worlds[i].files[p]).value, TextNow(Last(worlds[j].history), n).value)
    ensures worlds[i + 1].history != [] && LiveAt(Last(worlds[i + 1].history), p, n, out)
      && |Before(out, now)| == |live|
    ensures forall k | 0 <= k < |live| && live[k].born >= |worlds[j].history| :: Before(out, now)[k] == live[k]
    ensures Deletes(live, out, now) <==> !Agrees(worlds[j], p, n)
  {
    hide LoopStep, Crosses, LiveAt, Decode, Encode, GoodWorld;
    now, out := NextIngest(ign, events, worlds, p, j, i, n, live);
    Utf8Codec(TextAt(live, |worlds[j].history| - 1), worlds[i].files[p]);
  }

  /**
   A second ingest of the same file before an egress takes disk at its word:
   whatever the first one kept that disk does not show is gone.
   */
  lemma SecondIngestUndoes(w: World, w1: World, w2: World, p: Path, t1: seq<DocState>, t2: seq<DocState>,
                           n: NodeId, live: Text)
    returns (out: Text)
    requires GoodWorld(w) && Ingested(w, w1, [p], t1) && GoodWorld(w1) && Ingested(w1, w2, [p], t2)
    requires p in w.files && Decode(w.files[p]).Some?
    requires LiveAt(Last(w1.history), p, n, live) && Visible(live) != Decode(w.files[p]).value
    ensures w2.history != [] && LiveAt(Last(w2.history), p, n, out) && Visible(out) == Decode(w.files[p]).value
  {
    hide Tree.WellFormed, Carries, GoodDisk, Run, Walk, IsEcho, Encode, Decode, MergedIn;
    var base, now;
    base, now, out := BatchMerges(Source(w1.files, w1.dirs, w1.bases), [p], t2, p, n, live);
    assert Stamped(Last(w1.history), |w1.history| - 1, w1.next);
    assert w1.bases[p] == Base(|w1.history| - 1, n);
    IngestKeepsPeerEdits(live, base, Decode(w.files[p]).value, now, out);
  }
}
