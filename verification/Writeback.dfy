/** The dirty buffers between a mount's writes and the doc. */
module WriteBack {
  import opened Wrappers
  import opened Utf8
  import opened ByteReader
  import opened SharedText
  import opened FileTree
  import opened Docs

  /** One file's uncommitted bytes, the frontier they are to be diffed at, and when they were last written. */
  datatype Buffer = Buffer(bytes: seq<byte>, base: Frontier, lastWrite: nat)

  datatype Mount = Mount(history: seq<Tree>, next: NodeId, buffers: map<NodeId, Buffer>)

  // ---- a plain byte file ----

  /** `data` at `offset`, growing the file with zeros as needed. */
  function FileWrite(s: seq<byte>, offset: nat, data: seq<byte>): seq<byte> {
    seq(if |s| < offset + |data| then offset + |data| else |s|, i requires 0 <= i =>
      if offset <= i < offset + |data| then data[i - offset] else if i < |s| then s[i] else 0)
  }

  /** The first `size` bytes, zeros past the end. */
  function FileTruncate(s: seq<byte>, size: nat): seq<byte> {
    seq(size, i requires 0 <= i => if i < |s| then s[i] else 0)
  }

  /** `s'` is `s` with `data` from `offset` on, grown to the end of the data if it must be; a gap reads zero. */
  predicate IsWritten(s: seq<byte>, offset: nat, data: seq<byte>, s': seq<byte>) {
    && |s'| == (if |s| < offset + |data| then offset + |data| else |s|)
    && (forall i | 0 <= i < |data| :: s'[offset + i] == data[i])
    && (forall i | 0 <= i < |s'| && !(offset <= i < offset + |data|) :: s'[i] == if i < |s| then s[i] else 0)
  }

  /** `s'` is the first `size` bytes of `s`; what is past its end reads zero. */
  predicate IsResized(s: seq<byte>, size: nat, s': seq<byte>) {
    |s'| == size && forall i | 0 <= i < size :: s'[i] == if i < |s| then s[i] else 0
  }

  datatype FileOp = WriteOp(offset: nat, data: seq<byte>) | TruncateOp(size: nat) | CommitOp | OtherOp

  function FileApply(s: seq<byte>, op: FileOp): seq<byte> {
    match op
    case WriteOp(offset, data) => FileWrite(s, offset, data)
    case TruncateOp(size) => FileTruncate(s, size)
    case CommitOp => s
    case OtherOp => s
  }

  function FileRun(s: seq<byte>, ops: seq<FileOp>): seq<byte> {
    if ops == [] then s else FileApply(FileRun(s, ops[..|ops| - 1]), ops[|ops| - 1])
  }

  // ---- what a reader of the mount sees ----

  function LiveText(h: seq<Tree>, n: NodeId): Option<string> {
    if h == [] then None else ContentAt(h, n, |h| - 1)
  }

  /** A file's bytes: its buffer if it has one, else the doc's text. */
  function Image(m: Mount, n: NodeId): Option<seq<byte>> {
    if n in m.buffers then Some(m.buffers[n].bytes)
    else match LiveText(m.history, n) case None => None case Some(text) => Some(Encode(text))
  }

  /** Every buffer was seeded from a file, at a frontier of the past. */
  ghost predicate GoodMount(m: Mount) {
    && GoodHistory(m.history, m.next)
    && forall n | n in m.buffers :: ContentAt(m.history, n, m.buffers[n].base).Some?
  }

  /** Nobody else edited the file since its buffer was seeded. */
  ghost predicate Undisturbed(m: Mount, n: NodeId) {
    n in m.buffers ==>
      && m.history != [] && m.buffers[n].base < |m.history|
      && n in Last(m.history).nodes && n in m.history[m.buffers[n].base].nodes
      && Last(m.history).nodes[n].content == m.history[m.buffers[n].base].nodes[n].content
  }

  predicate SameText(h: seq<Tree>, h': seq<Tree>, n: NodeId)
  {
    && h != [] && h' != []
    && (n in Last(h).nodes ==> n in Last(h').nodes && Last(h').nodes[n].content == Last(h).nodes[n].content)
    && (n in Last(h').nodes && Last(h').nodes[n].content.Some? ==> n in Last(h).nodes)
  }

  /** The buffer of `n` as `op` leaves it, still diffed at the frontier it was first seeded at. */
  ghost predicate Buffered(m: Mount, m': Mount, n: NodeId, op: FileOp) {
    && m'.history == m.history && m'.next == m.next && m.history != [] && Image(m, n).Some?
    && n in m'.buffers && m'.buffers[n].bytes == FileApply(Image(m, n).value, op)
    && m'.buffers[n].base == (if n in m.buffers then m.buffers[n].base else |m.history| - 1)
    && m'.buffers - {n} == m.buffers - {n}
  }

  /** The buffer of `n` is merged into the doc as `text`. */
  ghost predicate Committed(m: Mount, m': Mount, n: NodeId, text: string) {
    && n in m.buffers && m'.buffers == m.buffers - {n} && m'.next == m.next
    && (Decode(m.buffers[n].bytes).Some? ==> Decode(m.buffers[n].bytes) == Some(text))
    && m'.history != [] && Edited(m.history, m'.history, n, text, m.buffers[n].base)
  }

  /** One step, as the file `n` sees it. Other steps leave its text and its buffer alone. */
  ghost predicate MountStep(n: NodeId, op: FileOp, m: Mount, m': Mount) {
    && GoodMount(m) && GoodMount(m')
    && match op
       case CommitOp => if n in m.buffers then exists text :: Committed(m, m', n, text) else m' == m
       case OtherOp =>
         && m.history <= m'.history && SameText(m.history, m'.history, n)
         && (n in m'.buffers <==> n in m.buffers) && (n in m.buffers ==> m'.buffers[n] == m.buffers[n])
       case _ => Buffered(m, m', n, op)
  }

  ghost predicate OthersLeft(node: NodeId, m: Mount, m': Mount) {
    forall n | n != node :: MountStep(n, OtherOp, m, m')
  }

  /** A byte vector's resize, filling with zeros. */
  function Resize(bytes: seq<byte>, size: nat): (r: seq<byte>)
    ensures |r| == size
  {
    if size <= |bytes| then bytes[..size] else bytes + seq(size - |bytes|, _ => 0)
  }

  lemma ResizeIsTruncate(bytes: seq<byte>, size: nat)
    ensures Resize(bytes, size) == FileTruncate(bytes, size)
  {
  }

  /** Resizing where needed and copying over is a write. */
  lemma SpliceIsWrite(bytes: seq<byte>, offset: nat, data: seq<byte>)
    ensures var end := offset + |data|;
      var grown := if |bytes| < end then Resize(bytes, end) else bytes;
      grown[..offset] + data + grown[end..] == FileWrite(bytes, offset, data)
  {
  }

  lemma WriteIsWritten(s: seq<byte>, offset: nat, data: seq<byte>)
    ensures IsWritten(s, offset, data, FileWrite(s, offset, data))
  {
  }

  lemma TruncateIsResized(s: seq<byte>, size: nat)
    ensures IsResized(s, size, FileTruncate(s, size))
  {
  }

  lemma BufferingLeavesOthers(node: NodeId, m: Mount, m': Mount)
    requires GoodMount(m) && GoodMount(m') && m'.history == m.history
    requires m'.buffers - {node} == m.buffers - {node}
    ensures OthersLeft(node, m, m')
  {
    hide Tree.WellFormed, Stamped, Carries;
    forall n | n != node
      ensures (n in m'.buffers <==> n in m.buffers) && (n in m.buffers ==> m'.buffers[n] == m.buffers[n]) {
      assert n in m.buffers <==> n in m.buffers - {node};
      assert n in m'.buffers <==> n in m'.buffers - {node};
    }
  }

  class Writeback {
    const doc: Doc
    /** What the text library makes of bytes that are not UTF-8. */
    const lossy: seq<byte> -> string
    var buffers: map<NodeId, Buffer>

    function Now(): Mount
      reads this, doc
    {
      Mount(doc.history, doc.next, buffers)
    }

    ghost predicate Valid()
      reads this, doc
    {
      GoodMount(Now())
    }

    constructor (doc: Doc, lossy: seq<byte> -> string)
      requires doc.Valid()
      ensures this.doc == doc && this.lossy == lossy && Valid() && buffers == map[]
    {
      this.doc, this.lossy, buffers := doc, lossy, map[];
    }

    /** Make sure `node` has a buffer, seeded from its text now. Fails on what is no file. */
    method Seeded(node: NodeId, now: nat) returns (ok: bool)
      requires Valid()
      modifies this
      ensures Valid() && ok == old(Image(Now(), node)).Some?
      ensures !ok ==> buffers == old(buffers)
      ensures ok ==> node in buffers && buffers[node].bytes == old(Image(Now(), node)).value
      ensures ok ==> buffers - {node} == old(buffers) - {node}
      ensures ok ==> buffers[node].base == (if node in old(buffers) then old(buffers)[node].base else |doc.history| - 1)
    {
      hide Tree.WellFormed, Stamped, Carries;
      if node in buffers {
        return true;
      }
      var t := doc.Tip();
      if node !in t.nodes || t.nodes[node].content.None? {
        return false;
      }
      buffers := buffers[node := Buffer(Encode(Visible(t.nodes[node].content.value)), doc.Frontiers(), now)];
      ok := true;
    }

    /** Splice `data` in at `offset`. */
    method Write(node: NodeId, offset: nat, data: seq<byte>, now: nat) returns (r: Result<nat, ()>)
      requires Valid()
      modifies this
      ensures Valid() && r == (if old(Image(Now(), node)).Some? then Ok(|data|) else Err(()))
      ensures r.Ok? ==>
        Image(Now(), node).Some? && IsWritten(old(Image(Now(), node)).value, offset, data, Image(Now(), node).value)
      ensures if r.Ok? then MountStep(node, WriteOp(offset, data), old(Now()), Now()) && buffers[node].lastWrite == now
                       else buffers == old(buffers)
      ensures OthersLeft(node, old(Now()), Now())
    {
      hide Tree.WellFormed, Stamped, Carries, OthersLeft, FileWrite, FileTruncate, Resize, ContentAt,
        IsWritten, IsResized;
      ghost var m := Now();
      var ok := Seeded(node, now);
      if !ok {
        BufferingLeavesOthers(node, m, m);
        return Err(());
      }
      var bytes := buffers[node].bytes;
      var end := offset + |data|;
      if |bytes| < end {
        bytes := Resize(bytes, end);
      }
      bytes := bytes[..offset] + data + bytes[end..];
      SpliceIsWrite(old(Image(Now(), node)).value, offset, data);
      WriteIsWritten(old(Image(Now(), node)).value, offset, data);
      buffers := buffers[node := buffers[node].(bytes := bytes, lastWrite := now)];
      BufferingLeavesOthers(node, m, Now());
      r := Ok(|data|);
    }

    /** Resize to `size` bytes. */
    method Truncate(node: NodeId, size: nat, now: nat) returns (r: Result<(), ()>)
      requires Valid()
      modifies this
      ensures Valid() && r.Ok? == old(Image(Now(), node)).Some?
      ensures r.Ok? ==>
        Image(Now(), node).Some? && IsResized(old(Image(Now(), node)).value, size, Image(Now(), node).value)
      ensures if r.Ok? then MountStep(node, TruncateOp(size), old(Now()), Now()) && buffers[node].lastWrite == now
                       else buffers == old(buffers)
      ensures OthersLeft(node, old(Now()), Now())
    {
      hide Tree.WellFormed, Stamped, Carries, OthersLeft, FileWrite, FileTruncate, Resize, ContentAt,
        IsWritten, IsResized;
      ghost var m := Now();
      var ok := Seeded(node, now);
      if !ok {
        BufferingLeavesOthers(node, m, m);
        return Err(());
      }
      var bytes := Resize(buffers[node].bytes, size);
      ResizeIsTruncate(old(Image(Now(), node)).value, size);
      TruncateIsResized(old(Image(Now(), node)).value, size);
      buffers := buffers[node := buffers[node].(bytes := bytes, lastWrite := now)];
      BufferingLeavesOthers(node, m, Now());
      r := Ok(());
    }

    /** Commit the file's buffer into the doc, if it has one. Says whether to nudge. */
    method Commit(node: NodeId) returns (nudge: bool)
      requires Valid()
      modifies this, doc
      ensures Valid() && nudge == (node in old(buffers))
      ensures MountStep(node, CommitOp, old(Now()), Now())
      ensures OthersLeft(node, old(Now()), Now())
    {
      hide Tree.WellFormed, Stamped, Carries, Edited, Encode, Decode;
      ghost var m := Now();
      if node !in buffers {
        return false;
      }
      var buf := buffers[node];
      buffers := buffers - {node};
      var decoded := Decode(buf.bytes);
      var text := if decoded.Some? then decoded.value else lossy(buf.bytes);
      nudge := doc.SetContentAt(node, text, buf.base);
      CommittedIsStep(m, Now(), node, text);
    }

    /** Commit every buffer last written at least `ceiling` ago. */
    method CommitStale(now: nat, ceiling: nat) returns (ghost order: seq<NodeId>, ghost trace: seq<Mount>)
      requires Valid()
      modifies this, doc
      ensures Valid() && CommitRun(order, trace) && trace[0] == old(Now()) && trace[|order|] == Now()
      ensures forall n :: n in order <==>
        n in old(buffers) && (old(buffers)[n].lastWrite + ceiling <= now || ceiling == 0)
    {
      hide Tree.WellFormed, Stamped, Carries, Edited, Encode, Decode, MountStep;
      ghost var m := Now();
      var stale := set n | n in buffers && Elapsed(buffers[n], now) >= ceiling;
      ghost var all := stale;
      order, trace := [], [Now()];
      while stale != {}
        invariant Valid() && CommitRun(order, trace) && trace[0] == m && trace[|order|] == Now()
        invariant forall n :: n in order <==> n in all && n !in stale
        invariant stale <= all && stale <= buffers.Keys
        decreases stale
      {
        var node :| node in stale;
        stale := stale - {node};
        ghost var before := Now();
        var _ := Commit(node);
        OthersBuffered(before, Now(), stale, node);
        CommitRunGrows(order, trace, node, Now());
        order, trace := order + [node], trace + [Now()];
      }
    }

    /** Bytes of the dirty buffer, if there is one. */
    method ReadBuffer(node: NodeId, offset: nat, size: nat) returns (r: Option<seq<byte>>)
      requires node in buffers ==> |buffers[node].bytes| <= USIZE_MAX
      ensures r.Some? <==> node in buffers
      ensures r.Some? ==> IsRange(buffers[node].bytes, offset, size, r.value)
    {
      if node !in buffers {
        return None;
      }
      var bytes := buffers[node].bytes;
      var end := Min(|bytes|, SaturatingAdd(offset, size));
      assert offset == |bytes| ==> bytes[offset..end] == [];
      r := Some(if offset <= end then bytes[offset..end] else []);
    }

    function Len(node: NodeId): Option<nat>
      reads this
    {
      if node in buffers then Some(|buffers[node].bytes|) else None
    }

    /** Drop the file's buffer without committing it: the file reads as the doc has it, the others as before. */
    method Discard(node: NodeId)
      requires Valid()
      modifies this
      ensures Valid() && buffers == old(buffers) - {node}
      ensures Image(Now(), node) ==
        (match LiveText(doc.history, node) case None => None case Some(s) => Some(Encode(s)))
      ensures forall n | n != node :: Image(Now(), n) == old(Image(Now(), n))
    {
      hide Tree.WellFormed, Stamped, Carries, Encode;
      buffers := buffers - {node};
    }

    /** The mount's read: the dirty buffer shadows the doc. Fails on what is no file. */
    method Read(node: NodeId, offset: nat, size: nat) returns (r: Result<seq<byte>, ()>)
      requires Valid() && (Image(Now(), node).Some? ==> |Image(Now(), node).value| <= USIZE_MAX)
      ensures r.Ok? <==> Image(Now(), node).Some?
      ensures r.Ok? ==> IsRange(Image(Now(), node).value, offset, size, r.value)
    {
      hide Tree.WellFormed, Stamped, Carries, Encode, IsRange;
      var dirty := ReadBuffer(node, offset, size);
      if dirty.Some? {
        return Ok(dirty.value);
      }
      var text := LiveText(doc.history, node);
      if text.None? {
        return Err(());
      }
      var bytes := ReadBytes(text.value, offset, size);
      r := Ok(bytes);
    }

    /** The size the mount reports: nothing for an unknown kind, zero for a directory, else the file's bytes. */
    method Size(node: NodeId) returns (size: Option<nat>)
      requires Valid()
      ensures var kind := doc.Tip().KindOf(node);
        size == if kind == None then None
                else if kind == Some(Dir) then Some(0)
                else match Image(Now(), node) case Some(bytes) => Some(|bytes|) case None => None
    {
      hide Tree.WellFormed, Stamped, Carries, Encode;
      var kind := doc.Tip().KindOf(node);
      if kind == None {
        return None;
      }
      if kind == Some(Dir) {
        return Some(0);
      }
      size := Len(node);
      if size.None? {
        var text := LiveText(doc.history, node);
        size := if text.Some? then Some(|Encode(text.value)|) else None;
      }
    }
  }

  function Elapsed(buf: Buffer, now: nat): nat {
    if buf.lastWrite <= now then now - buf.lastWrite else 0
  }

  ghost predicate CommitAt(order: seq<NodeId>, trace: seq<Mount>, i: int) {
    && 0 <= i < |order| && |trace| == |order| + 1
    && MountStep(order[i], CommitOp, trace[i], trace[i + 1])
    && OthersLeft(order[i], trace[i], trace[i + 1])
  }

  ghost predicate CommitRun(order: seq<NodeId>, trace: seq<Mount>) {
    |trace| == |order| + 1 && forall i | 0 <= i < |order| :: CommitAt(order, trace, i)
  }

  lemma CommitRunGrows(order: seq<NodeId>, trace: seq<Mount>, node: NodeId, m: Mount)
    requires CommitRun(order, trace) && MountStep(node, CommitOp, trace[|order|], m)
    requires OthersLeft(node, trace[|order|], m)
    ensures CommitRun(order + [node], trace + [m])
  {
    hide MountStep;
    forall i | 0 <= i < |order| + 1 ensures CommitAt(order + [node], trace + [m], i) {
      assert i < |order| ==> CommitAt(order, trace, i);
    }
  }

  lemma OthersBuffered(m: Mount, m': Mount, nodes: set<NodeId>, node: NodeId)
    requires node !in nodes && nodes <= m.buffers.Keys
    requires OthersLeft(node, m, m')
    ensures nodes <= m'.buffers.Keys
  {
    forall n | n in nodes ensures n in m'.buffers {
      assert MountStep(n, OtherOp, m, m');
    }
  }

  lemma {:induction false} CommittedIsStep(m: Mount, m': Mount, node: NodeId, text: string)
    requires GoodMount(m) && Committed(m, m', node, text) && GoodHistory(m'.history, m'.next)
    ensures GoodMount(m') && MountStep(node, CommitOp, m, m')
    ensures OthersLeft(node, m, m')
  {
    hide Tree.WellFormed, Stamped, Carries, Edited, Decode;
    EditedTip(m.history, m'.history, m.next, node, text, m.buffers[node].base);
    forall n | n in m'.buffers ensures ContentAt(m'.history, n, m'.buffers[n].base).Some? {
      PastStays(m.history, m'.history, n, m.buffers[n].base);
    }
  }

  // ---- the cache behaves as a plain byte file ----

  /** With nobody else editing the file, committing valid UTF-8 changes nothing a reader sees. */
  lemma {:induction false} CommitKeepsImage(m: Mount, m': Mount, n: NodeId, text: string)
    requires GoodMount(m) && GoodMount(m') && Undisturbed(m, n)
    requires Committed(m, m', n, text) && Decode(m.buffers[n].bytes).Some?
    ensures Image(m', n) == Image(m, n)
  {
    hide Tree.WellFormed, Carries, Decode, Encode, Merged;
    var base := m.buffers[n].base;
    assert Stamped(m.history[base], base, m.next);
    EditedExactly(m.history, m'.history, m.next, n, text, base);
    Utf8Codec(text, m.buffers[n].bytes);
  }

  lemma StepRefines(n: NodeId, op: FileOp, m: Mount, m': Mount)
    requires MountStep(n, op, m, m') && Undisturbed(m, n) && Image(m, n).Some?
    requires op == CommitOp && n in m.buffers ==> Decode(m.buffers[n].bytes).Some?
    ensures Undisturbed(m', n) && Image(m', n) == Some(FileApply(Image(m, n).value, op))
  {
    hide Tree.WellFormed, Stamped, Carries, Edited, Decode, Encode, FileWrite, FileTruncate;
    match op
    case CommitOp =>
      if n in m.buffers {
        var text :| Committed(m, m', n, text);
        CommitKeepsImage(m, m', n, text);
      }
    case OtherOp =>
      if n in m.buffers {
        assert m'.history[m.buffers[n].base] == m.history[m.buffers[n].base];
      }
    case _ =>
  }

  ghost predicate MountRun(n: NodeId, ops: seq<FileOp>, trace: seq<Mount>) {
    |trace| == |ops| + 1 && forall i | 0 <= i < |ops| :: RunAt(n, ops, trace, i)
  }

  ghost predicate RunAt(n: NodeId, ops: seq<FileOp>, trace: seq<Mount>, i: int) {
    0 <= i < |ops| && |trace| == |ops| + 1 && MountStep(n, ops[i], trace[i], trace[i + 1])
  }

  /** What is committed along the way is valid UTF-8. */
  ghost predicate CommitsText(n: NodeId, ops: seq<FileOp>, trace: seq<Mount>) {
    |trace| == |ops| + 1 && forall i | 0 <= i < |ops| :: ops[i] == CommitOp && n in trace[i].buffers ==>
      Decode(trace[i].buffers[n].bytes).Some?
  }

  /**
   The write-back cache refines a byte file. Through any writes, truncates and
   commits, with no one else editing the file and valid UTF-8 at each commit,
   the file reads as one byte array that was written and truncated directly.
   */
  lemma {:induction false} CacheIsByteFile(n: NodeId, ops: seq<FileOp>, trace: seq<Mount>, s: seq<byte>, i: nat)
    requires MountRun(n, ops, trace) && CommitsText(n, ops, trace) && i <= |ops|
    requires Undisturbed(trace[0], n) && Image(trace[0], n) == Some(s)
    ensures Undisturbed(trace[i], n) && Image(trace[i], n) == Some(FileRun(s, ops[..i]))
    decreases i
  {
    hide MountStep, Undisturbed, Image, FileApply, Decode;
    if i > 0 {
      CacheIsByteFile(n, ops, trace, s, i - 1);
      assert RunAt(n, ops, trace, i - 1);
      StepRefines(n, ops[i - 1], trace[i - 1], trace[i]);
      assert ops[..i][..i - 1] == ops[..i - 1];
    }
  }

  /** The diff base of a buffer is the frontier of the write that seeded it, for as long as it lives. */
  lemma {:induction false} BaseIsFirstSeed(n: NodeId, ops: seq<FileOp>, trace: seq<Mount>, from: nat, i: nat)
    requires MountRun(n, ops, trace) && from < i <= |ops| && n !in trace[from].buffers
    requires forall k | from < k <= i :: n in trace[k].buffers
    ensures trace[from].history != [] && trace[i].buffers[n].base == |trace[from].history| - 1
    decreases i
  {
    hide GoodMount, Image, FileApply, Edited, Decode, SameText;
    assert RunAt(n, ops, trace, i - 1);
    if i > from + 1 {
      BaseIsFirstSeed(n, ops, trace, from, i - 1);
      assert n in trace[i - 1].buffers;
    }
  }

  /** A commit of a disturbed file still keeps every character others put in since the base. */
  lemma {:induction false} CommitKeepsOthers(m: Mount, m': Mount, n: NodeId, text: string, live: Text)
    returns (out: Text)
    requires GoodMount(m) && GoodMount(m') && Committed(m, m', n, text)
    requires n in Last(m.history).nodes && Last(m.history).nodes[n].content == Some(live)
    ensures n in Last(m'.history).nodes && Last(m'.history).nodes[n].content == Some(out)
    ensures |Before(out, |m.history|)| == |live|
    ensures forall i | 0 <= i < |live| && live[i].born > m.buffers[n].base :: Before(out, |m.history|)[i] == live[i]
    ensures forall i | 0 <= i < |live| && Before(out, |m.history|)[i] != live[i] :: AliveAt(live[i], m.buffers[n].base)
  {
    hide Tree.WellFormed, Carries, Merged, Decode, Encode;
    var h, h', base := m.history, m'.history, m.buffers[n].base;
    var script: seq<Edit>, res: Text :|
      && Patch(script, TextAt(live, base)) == Some(text) && Merged(live, base, script, |h|, res)
      && (if h' == h then res == live else h' == h + [Last(h).WithContent(n, res)]);
    out := res;
    assert Stamped(Last(h), |h| - 1, m.next);
    MergeKeepsOthers(live, base, script, |h|, out);
  }
}
