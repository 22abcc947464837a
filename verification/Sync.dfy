/**
 The sync protocol, with no I/O: messages, the one-shot driver that converges
 once, and the live session that keeps streaming.
 */
module SyncProtocol {
  import opened Wrappers
  import opened CausalDoc

  /** A message with a version, a batch of updates or presence bytes inside. */
  datatype Msg<+H, +U, +E> =
    | Have(vv: H)
    | Updates(ops: U)
    | Ephemeral(bytes: E)

  type WireMsg = Msg<seq<byte>, seq<byte>, seq<byte>>

  /** A payload as the driver finds it: it either decodes or it does not. */
  datatype Encoded<+T> = Good(value: T) | Garbled

  type Frame = Msg<Encoded<Version>, Encoded<Version>, seq<byte>>

  datatype SyncError = Malformed | OutOfOrder | Orphaned | Loro

  /** What a peer may do with our state: read it, write to it. */
  datatype Perms = Perms(pull: bool, push: bool)

  // ---- the wire form of a message: one tag byte, then the body ----

  function Encode(m: WireMsg): seq<byte> {
    match m
    case Have(b) => [0] + b
    case Updates(b) => [1] + b
    case Ephemeral(b) => [2] + b
  }

  function Decode(bytes: seq<byte>): Result<WireMsg, SyncError> {
    if bytes == [] then Err(Malformed)
    else match bytes[0]
         case 0 => Ok(Have(bytes[1..]))
         case 1 => Ok(Updates(bytes[1..]))
         case 2 => Ok(Ephemeral(bytes[1..]))
         case _ => Err(Malformed)
  }

  /** Messages and the byte strings that parse correspond one to one. */
  lemma {:induction false} MessageCodec(m: WireMsg, bytes: seq<byte>)
    ensures Decode(bytes) == Ok(m) <==> bytes == Encode(m)
    ensures Decode(bytes).Err? <==> bytes == [] || bytes[0] > 2
    ensures bytes == Encode(m) ==>
      && bytes[0] == (match m case Have(_) => 0 case Updates(_) => 1 case Ephemeral(_) => 2)
      && bytes[1..] == (match m case Have(b) => b case Updates(b) => b case Ephemeral(b) => b)
  {
    assert Encode(m)[1..] == match m case Have(b) => b case Updates(b) => b case Ephemeral(b) => b;
    if Decode(bytes) == Ok(m) {
      assert bytes == [bytes[0]] + bytes[1..];
    }
  }

  // ---- the one-shot driver ----

  datatype Phase = AwaitHave | AwaitUpdates | Finished

  datatype Step = Send(msg: Frame) | Done

  /** What a one-shot driver does with a message: its answer, phase and doc. */
  function OneShotOn(perms: Perms, phase: Phase, doc: DocState, msg: Frame)
    : (Result<Step, SyncError>, Phase, DocState)
  {
    if phase == AwaitHave && msg.Have? then
      if perms.pull then
        if msg.vv.Garbled? then (Err(Loro), phase, doc)
        else (Ok(Send(Updates(Good(UpdatesSince(doc, msg.vv.value))))), AwaitUpdates, doc)
      else
        (Ok(Send(Updates(Good(UpdatesSince(doc, doc.version))))), AwaitUpdates, doc)
    else if phase == AwaitUpdates && msg.Updates? then
      if !perms.push then (Ok(Done), Finished, doc)
      else if msg.ops.Garbled? then (Err(Loro), phase, doc)
      else
        var doc' := Import(doc, msg.ops.value);
        if Orphans(doc, msg.ops.value) then (Err(Orphaned), phase, doc')
        else (Ok(Done), Finished, doc')
    else
      (Err(OutOfOrder), phase, doc)
  }

  /** When a one-shot driver fails, how, and what it leaves as it was. */
  lemma OneShotFails(perms: Perms, phase: Phase, doc: DocState, msg: Frame)
    ensures var (r, phase', doc') := OneShotOn(perms, phase, doc, msg);
      var expected := (phase == AwaitHave && msg.Have?) || (phase == AwaitUpdates && msg.Updates?);
      && (r == Err(OutOfOrder) <==> !expected)
      && (r == Err(Loro) <==>
            expected && ((msg.Have? && perms.pull && msg.vv.Garbled?)
                         || (msg.Updates? && perms.push && msg.ops.Garbled?)))
      && (r == Err(Orphaned) <==>
            expected && msg.Updates? && perms.push && msg.ops.Good? && Orphans(doc, msg.ops.value))
      && (r.Err? ==> r.error in {OutOfOrder, Loro, Orphaned} && phase' == phase)
      && (r.Ok? ==> (phase' == if msg.Have? then AwaitUpdates else Finished) && (r.value.Done? <==> msg.Updates?))
      && (doc' != doc ==> expected && msg.Updates? && perms.push && msg.ops.Good?)
  {
  }

  // ---- the live session ----

  datatype Live = Live(send: Option<Frame>, changed: bool)

  /** What the peer lacks since we last sent, and the mark after sending it. */
  function LivePending(perms: Perms, acked: Version, doc: DocState): (Option<Frame>, Version) {
    if !perms.pull || doc.version == acked then (None, acked)
    else (Some(Updates(Good(UpdatesSince(doc, acked)))), doc.version)
  }

  /** What a live session does with a message: its answer, mark and doc. */
  function LiveOn(perms: Perms, acked: Version, doc: DocState, msg: Frame)
    : (Result<Live, SyncError>, Version, DocState)
  {
    match msg
    case Have(Garbled) => (Err(Loro), acked, doc)
    case Have(Good(vv)) =>
      var (send, acked') := LivePending(perms, vv, doc);
      (Ok(Live.Live(send, false)), acked', doc)
    case Updates(u) =>
      if !perms.push then (Ok(Live.Live(None, false)), acked, doc)
      else if u.Garbled? then (Err(Loro), acked, doc)
      else
        var doc' := Import(doc, u.value);
        if Orphans(doc, u.value) then (Err(Orphaned), acked, doc')
        else (Ok(Live.Live(None, doc'.version != doc.version)), acked, doc')
    case Ephemeral(_) => (Ok(Live.Live(None, false)), acked, doc)
  }

  /** When a live session fails, how, and what it leaves as it was. */
  lemma LiveFails(perms: Perms, acked: Version, doc: DocState, msg: Frame)
    ensures var (r, acked', doc') := LiveOn(perms, acked, doc, msg);
      && (r == Err(Loro) <==>
            (msg.Have? && msg.vv.Garbled?) || (msg.Updates? && perms.push && msg.ops.Garbled?))
      && (r == Err(Orphaned) <==>
            msg.Updates? && perms.push && msg.ops.Good? && Orphans(doc, msg.ops.value))
      && (r.Err? ==> r.error in {Loro, Orphaned} && acked' == acked)
      && (doc' != doc ==> msg.Updates? && perms.push && msg.ops.Good?)
      && (r.Ok? ==> (r.value.changed <==> doc'.version != doc.version))
      && (r.Ok? && r.value.send.Some? ==> msg.Have? && perms.pull)
      && (!msg.Have? ==> acked' == acked)
  {
  }

  // ---- the objects the transport drives ----

  /** The shared doc: imports change it in place. */
  class Doc {
    var state: DocState

    constructor ()
      ensures state == DocState({}, {})
    {
      state := DocState({}, {});
    }

    /** Apply a batch; `pending` reports that part of it had to be held. */
    method ImportBatch(u: Version) returns (pending: bool)
      modifies this
      ensures state == Import(old(state), u)
      ensures pending == Orphans(old(state), u)
    {
      var all := state.version + state.pending + u;
      var applied := Settle(all);
      pending := u - applied != {};
      state := DocState(applied, all - applied);
    }

    /** Import a peer's updates, failing if they refer to history we lack. */
    method ImportNoOrphans(u: Encoded<Version>) returns (r: Result<(), SyncError>)
      modifies this
      ensures u.Garbled? ==> r == Err(Loro) && state == old(state)
      ensures u.Good? ==> state == Import(old(state), u.value)
      ensures u.Good? ==> r == if Orphans(old(state), u.value) then Err(Orphaned) else Ok(())
    {
      if u.Garbled? {
        return Err(Loro);
      }
      var pending := ImportBatch(u.value);
      r := if pending then Err(Orphaned) else Ok(());
    }
  }

  /** One side of an exchange that converges once and stops. */
  class OneShot {
    const doc: Doc
    const perms: Perms
    var phase: Phase

    constructor (doc: Doc, perms: Perms)
      ensures this.doc == doc && this.perms == perms && phase == AwaitHave
    {
      this.doc := doc;
      this.perms := perms;
      phase := AwaitHave;
    }

    method Start() returns (m: Frame)
      ensures m == Have(Good(doc.state.version))
    {
      m := Have(Good(doc.state.version));
    }

    method On(msg: Frame) returns (r: Result<Step, SyncError>)
      modifies this, doc
      ensures (r, phase, doc.state) == OneShotOn(perms, old(phase), old(doc.state), msg)
    {
      match (phase, msg) {
        case (AwaitHave, Have(vv)) =>
          var from;
          if perms.pull {
            if vv.Garbled? {
              return Err(Loro);
            }
            from := vv.value;
          } else {
            from := doc.state.version;
          }
          phase := AwaitUpdates;
          r := Ok(Send(Updates(Good(UpdatesSince(doc.state, from)))));
        case (AwaitUpdates, Updates(u)) =>
          if perms.push {
            var imported := doc.ImportNoOrphans(u);
            if imported.Err? {
              return Err(imported.error);
            }
          }
          phase := Finished;
          r := Ok(Done);
        case _ =>
          r := Err(OutOfOrder);
      }
    }
  }

  /** A held-open session; `acked` is how far we believe the peer has got. */
  class LiveSync {
    const perms: Perms
    var acked: Version

    constructor (perms: Perms)
      ensures this.perms == perms && acked == {}
    {
      this.perms := perms;
      acked := {};
    }

    method Start(doc: Doc) returns (m: Frame)
      ensures m == Have(Good(doc.state.version))
    {
      m := Have(Good(doc.state.version));
    }

    method On(doc: Doc, msg: Frame) returns (r: Result<Live, SyncError>)
      modifies this, doc
      ensures (r, acked, doc.state) == LiveOn(perms, old(acked), old(doc.state), msg)
    {
      match msg {
        case Have(vv) =>
          if vv.Garbled? {
            return Err(Loro);
          }
          acked := vv.value;
          var send := Pending(doc);
          r := Ok(Live.Live(send, false));
        case Updates(u) =>
          if !perms.push {
            return Ok(Live.Live(None, false));
          }
          var before := doc.state.version;
          var imported := doc.ImportNoOrphans(u);
          if imported.Err? {
            return Err(imported.error);
          }
          r := Ok(Live.Live(None, doc.state.version != before));
        case Ephemeral(_) =>
          r := Ok(Live.Live(None, false));
      }
    }

    method Pending(doc: Doc) returns (send: Option<Frame>)
      modifies this
      ensures (send, acked) == LivePending(perms, old(acked), doc.state)
    {
      if !perms.pull {
        return None;
      }
      var ver := doc.state.version;
      if ver == acked {
        return None;
      }
      var updates := UpdatesSince(doc.state, acked);
      acked := ver;
      send := Some(Updates(Good(updates)));
    }
  }
}
