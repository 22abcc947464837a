/**
 Length-prefixed frames over a byte stream, read by a future that is polled in
 a select loop beside other arms.
 */
module Frames {
  import opened Wrappers

  const MAX_FRAME: nat := 0x400_0000

  datatype FrameError = TooLarge(len: nat) | StreamEnded

  function ToBigEndian(n: nat): seq<byte>
    requires n < U32_END
  {
    [n / 0x100_0000, n / 0x1_0000 % 0x100, n / 0x100 % 0x100, n % 0x100]
  }

  function FromBigEndian(b: seq<byte>): nat
    requires |b| == 4
  {
    var b0: int, b1: int, b2: int, b3: int := b[0], b[1], b[2], b[3];
    b0 * 0x100_0000 + b1 * 0x1_0000 + b2 * 0x100 + b3
  }

  lemma BigEndianRoundTrip(n: nat)
    requires n < U32_END
    ensures FromBigEndian(ToBigEndian(n)) == n
    ensures var b := ToBigEndian(n);
      var b0: int, b1: int, b2: int, b3: int := b[0], b[1], b[2], b[3];
      n == ((b0 * 0x100 + b1) * 0x100 + b2) * 0x100 + b3
  {
    assert n / 0x100 == n / 0x1_0000 * 0x100 + n / 0x100 % 0x100;
  }

  /** A frame on the wire, or the writer's refusal to write it. */
  function Framed(body: seq<byte>): Result<seq<byte>, FrameError> {
    if |body| < U32_END then Ok(ToBigEndian(|body|) + body) else Err(TooLarge(|body|))
  }

  datatype Parsed = More | Frame(body: seq<byte>, used: nat) | Bad(error: FrameError, used: nat)

  /** What a reader makes of the bytes since the last frame boundary. */
  function Parse(s: seq<byte>): Parsed {
    if |s| < 4 then More
    else
      var len := FromBigEndian(s[..4]);
      if len > MAX_FRAME then Bad(TooLarge(len), 4)
      else if |s| < 4 + len then More
      else Frame(s[4..4 + len], 4 + len)
  }

  /**
   A frame parses to its body, whatever follows it, and a proper prefix asks for
   more; but a body over the cap, which the writer sends all the same, is refused
   as soon as its length is there.
   */
  lemma {:induction false} ParseFrame(body: seq<byte>, tail: seq<byte>, cut: nat)
    requires |body| < U32_END
    requires cut < 4 + |body|
    ensures Framed(body).Ok?
    ensures Parse(Framed(body).value + tail) ==
      if |body| <= MAX_FRAME then Frame(body, 4 + |body|) else Bad(TooLarge(|body|), 4)
    ensures Parse(Framed(body).value[..cut]) ==
      if cut < 4 || |body| <= MAX_FRAME then More else Bad(TooLarge(|body|), 4)
  {
    BigEndianRoundTrip(|body|);
    var f := Framed(body).value;
    assert (f + tail)[..4] == ToBigEndian(|body|);
    assert |body| <= MAX_FRAME ==> (f + tail)[4..4 + |body|] == body;
    if cut >= 4 {
      assert f[..cut][..4] == ToBigEndian(|body|);
    }
  }

  lemma ParseHeader(head: seq<byte>)
    requires |head| == 4
    ensures var n := FromBigEndian(head);
      Parse(head) == if n > MAX_FRAME then Bad(TooLarge(n), 4) else if n == 0 then Frame([], 4) else More
  {
    assert head[..4] == head;
  }

  lemma ParseWhole(head: seq<byte>, body: seq<byte>)
    requires |head| == 4 && FromBigEndian(head) == |body| <= MAX_FRAME
    ensures Parse(head + body) == Frame(body, 4 + |body|)
  {
    assert (head + body)[..4] == head && (head + body)[4..] == body;
  }

  /** The in-flight read of one frame: a length buffer, then a body buffer. */
  class FrameReader {
    var len: array<byte>
    var body: array<byte>
    var filled: nat
    var inBody: bool

    ghost predicate Valid()
      reads this, len, body
    {
      && len.Length == 4 && len != body
      && (inBody ==> filled < body.Length == FromBigEndian(len[..]) <= MAX_FRAME)
      && (!inBody ==> filled < 4)
    }

    /** The bytes read since the last frame boundary. */
    ghost function Progress(): seq<byte>
      requires Valid()
      reads this, len, body
    {
      if inBody then len[..] + body[..filled] else len[..filled]
    }

    constructor ()
      ensures Valid() && Progress() == [] && fresh(len) && fresh(body)
    {
      len := new byte[4](_ => 0);
      body := new byte[0];
      filled := 0;
      inBody := false;
    }

    lemma Incomplete()
      requires Valid()
      ensures Parse(Progress()) == More
    {
      if inBody {
        assert Progress()[..4] == len[..];
      }
    }

    /** Put one byte where it belongs; the frame is handed out when it is full. */
    method Push(b: byte) returns (out: Parsed)
      requires Valid()
      modifies this, len, body
      ensures out == Parse(old(Progress()) + [b])
      ensures out == More ==> Valid() && Progress() == old(Progress()) + [b]
      ensures out != More ==> out.used == |old(Progress())| + 1
      ensures len == old(len) && (body == old(body) || fresh(body))
    {
      hide FromBigEndian, Parse;
      ghost var seen := Progress() + [b];
      if inBody {
        body[filled] := b;
        filled := filled + 1;
        assert len[..] + body[..filled] == seen;
        if filled == body.Length {
          assert seen == len[..] + body[..];
          ParseWhole(len[..], body[..]);
          return Frame(body[..], 4 + body.Length);
        }
      } else {
        len[filled] := b;
        filled := filled + 1;
        assert len[..filled] == seen;
        if filled == 4 {
          assert len[..] == seen;
          ParseHeader(seen);
          var n := FromBigEndian(len[..]);
          if n > MAX_FRAME {
            return Bad(TooLarge(n), 4);
          }
          if n == 0 {
            return Frame([], 4);
          }
          body := new byte[n](_ => 0);
          inBody, filled := true, 0;
          assert Progress() == seen;
        }
      }
      out := More;
      assert Progress() == seen;
      Incomplete();
    }

    /**
     Poll the read with the bytes that have arrived. It takes no byte beyond
     its frame, and its buffers keep what it took while the frame is short. If
     the stream has `ended` after these bytes, a frame still short is an error.
     */
    method Poll(chunk: seq<byte>, ended: bool) returns (out: Parsed, used: nat)
      requires Valid()
      modifies this, len, body
      ensures used <= |chunk|
      ensures var parsed := Parse(old(Progress()) + chunk);
        out == if parsed == More && ended then Bad(StreamEnded, |old(Progress()) + chunk|) else parsed
      ensures out == More ==> used == |chunk| && Valid() && Progress() == old(Progress()) + chunk
      ensures out != More ==> out.used == |old(Progress())| + used
      ensures len == old(len) && (body == old(body) || fresh(body))
    {
      hide FromBigEndian, Parse;
      ghost var before := Progress();
      used, out := 0, More;
      assert before + chunk[..0] == before;
      while used < |chunk|
        invariant used <= |chunk| && Valid() && len == old(len)
        invariant body == old(body) || fresh(body)
        invariant Progress() == before + chunk[..used] && out == More
      {
        ghost var seen := Progress() + [chunk[used]];
        out := Push(chunk[used]);
        used := used + 1;
        assert seen == before + chunk[..used];
        if out != More {
          assert before + chunk == seen + chunk[used..];
          ParseStops(seen, chunk[used..]);
          return;
        }
      }
      assert chunk[..used] == chunk;
      Incomplete();
      if ended {
        assert |Progress()| == |before + chunk|;
        out := Bad(StreamEnded, if inBody then 4 + filled else filled);
      }
    }
  }

  /** Once a frame is complete, later bytes do not change it. */
  lemma ParseStops(s: seq<byte>, tail: seq<byte>)
    requires Parse(s) != More
    ensures Parse(s + tail) == Parse(s)
  {
    assert (s + tail)[..4] == s[..4];
    var len := FromBigEndian(s[..4]);
    if len <= MAX_FRAME {
      assert (s + tail)[4..4 + len] == s[4..4 + len];
    }
  }

  // ---- one direction of a connection ----

  /** Bodies written, bytes in transit, the read in flight, bodies handed on; a failed read ends the session. */
  datatype Link = Link(written: seq<seq<byte>>, wire: seq<byte>, progress: seq<byte>, delivered: seq<seq<byte>>,
                       failed: bool)

  datatype Turn =
    /** The far side writes a frame, over the cap or not. */
    | Write(body: seq<byte>)
    /** The read arm is polled when `n` more bytes have arrived. */
    | Poll(n: nat)
    /** A nudge or a relay item wins the select; the read stays in flight. */
    | OtherArm

  ghost predicate Can(l: Link, t: Turn) {
    match t
    case Write(body) => Framed(body).Ok?
    case Poll(n) => !l.failed && n <= |l.wire|
    case OtherArm => true
  }

  ghost function Take(l: Link, t: Turn): Link
    requires Can(l, t)
  {
    match t
    case Write(body) => l.(written := l.written + [body], wire := l.wire + Framed(body).value)
    case Poll(n) =>
      (match Parse(l.progress + l.wire[..n])
       case More => l.(progress := l.progress + l.wire[..n], wire := l.wire[n..])
       case Frame(body, used) =>
         l.(delivered := l.delivered + [body], progress := [], wire := (l.progress + l.wire)[used..])
       case Bad(_, _) => l.(failed := true))
    case OtherArm => l
  }

  ghost predicate Turns(l: Link, ts: seq<Turn>, m: Link)
    decreases |ts|
  {
    if ts == [] then l == m else Can(l, ts[0]) && Turns(Take(l, ts[0]), ts[1..], m)
  }

  ghost function Stream(bodies: seq<seq<byte>>): seq<byte>
    requires forall b | b in bodies :: |b| < U32_END
  {
    if bodies == [] then [] else Framed(bodies[0]).value + Stream(bodies[1..])
  }

  /** The next body to hand on is over the cap. */
  predicate Stuck(l: Link) {
    |l.delivered| < |l.written| && |l.written[|l.delivered|]| > MAX_FRAME
  }

  ghost predicate Aligned(l: Link) {
    && (forall b | b in l.written :: |b| < U32_END)
    && (forall b | b in l.delivered :: |b| <= MAX_FRAME)
    && |l.delivered| <= |l.written|
    && l.delivered == l.written[..|l.delivered|]
    && l.progress + l.wire == Stream(l.written[|l.delivered|..])
    && Parse(l.progress) == More
    && (l.failed ==> Stuck(l))
  }

  lemma {:induction false} StreamAppend(bodies: seq<seq<byte>>, body: seq<byte>)
    requires |body| < U32_END && forall b | b in bodies :: |b| < U32_END
    ensures Stream(bodies + [body]) == Stream(bodies) + Framed(body).value
    decreases |bodies|
  {
    if bodies != [] {
      assert (bodies + [body])[1..] == bodies[1..] + [body];
      StreamAppend(bodies[1..], body);
    } else {
      assert ([body])[1..] == [];
    }
  }

  /** The next bytes on an aligned link are the next body's frame, or a part of it. */
  lemma NextFrame(l: Link, n: nat)
    requires Aligned(l) && n <= |l.wire|
    ensures var k := |l.delivered|;
      match Parse(l.progress + l.wire[..n])
      case More => true
      case Frame(body, used) =>
        k < |l.written| && body == l.written[k] && |body| <= MAX_FRAME && used <= |l.progress + l.wire|
        && (l.progress + l.wire)[used..] == Stream(l.written[k + 1..])
      case Bad(_, _) => Stuck(l)
  {
    var k := |l.delivered|;
    var s, all := l.progress + l.wire[..n], l.progress + l.wire;
    assert all == s + l.wire[n..];
    if Parse(s) != More {
      ParseStops(s, l.wire[n..]);
      assert k < |l.written|;
      assert l.written[k] in l.written;
      ParseFrame(l.written[k], Stream(l.written[k..][1..]), 0);
      assert l.written[k..][1..] == l.written[k + 1..];
    }
  }

  lemma WriteKeepsAligned(l: Link, body: seq<byte>)
    requires Aligned(l) && Can(l, Write(body))
    ensures Aligned(Take(l, Write(body)))
  {
    hide Parse, Stream, ToBigEndian;
    var k := |l.delivered|;
    var rest, frame := l.written[k..], Framed(body).value;
    StreamAppend(rest, body);
    assert (l.written + [body])[k..] == rest + [body];
    assert (l.written + [body])[..k] == l.written[..k];
    assert l.progress + (l.wire + frame) == (l.progress + l.wire) + frame;
  }

  lemma NothingYet()
    ensures Parse([]) == More
  {
  }

  lemma PollKeepsAligned(l: Link, n: nat)
    requires Aligned(l) && Can(l, Poll(n))
    ensures Aligned(Take(l, Poll(n)))
  {
    hide Parse, Stream;
    var k := |l.delivered|;
    NothingYet();
    NextFrame(l, n);
    match Parse(l.progress + l.wire[..n])
    case More =>
      assert (l.progress + l.wire[..n]) + l.wire[n..] == l.progress + l.wire;
    case Frame(body, used) =>
      assert l.delivered + [body] == l.written[..k + 1];
      assert [] + (l.progress + l.wire)[used..] == (l.progress + l.wire)[used..];
    case Bad(_, _) =>
  }

  lemma {:induction false} TurnsKeepAligned(l: Link, ts: seq<Turn>, m: Link)
    requires Aligned(l) && Turns(l, ts, m)
    ensures Aligned(m)
    decreases |ts|
  {
    if ts != [] {
      match ts[0] {
        case Write(body) => WriteKeepsAligned(l, body);
        case Poll(n) => PollKeepsAligned(l, n);
        case OtherArm =>
      }
      TurnsKeepAligned(Take(l, ts[0]), ts[1..], m);
    }
  }

  /**
   However bytes arrive and whatever other arms fire, the frames handed on are
   an in-order prefix of those written. A read fails only at a body over the cap;
   once all has been polled, or a read has failed, one has failed if and only if
   such a body was written, and otherwise all have been handed on.
   */
  lemma FramesStayAligned(ts: seq<Turn>, l: Link)
    requires Turns(Link([], [], [], [], false), ts, l)
    ensures |l.delivered| <= |l.written| && l.delivered == l.written[..|l.delivered|]
    ensures l.failed ==> Stuck(l)
    ensures forall n: nat | n <= |l.wire| :: Parse(l.progress + l.wire[..n]).Bad? ==> Stuck(l)
    ensures l.wire == [] || l.failed ==> (l.failed <==> exists b :: b in l.written && |b| > MAX_FRAME)
    ensures l.wire == [] && !l.failed ==> l.delivered == l.written && l.progress == []
  {
    TurnsKeepAligned(Link([], [], [], [], false), ts, l);
    forall n: nat | n <= |l.wire| ensures Parse(l.progress + l.wire[..n]).Bad? ==> Stuck(l) {
      NextFrame(l, n);
    }
    var rest := l.written[|l.delivered|..];
    if l.failed {
      assert l.written[|l.delivered|] in l.written;
    } else if l.wire == [] {
      assert l.progress == l.progress + l.wire == Stream(rest);
      if rest != [] {
        assert rest[0] in l.written;
        ParseFrame(rest[0], Stream(rest[1..]), 0);
        assert false;
      }
      assert l.delivered == l.written;
    }
  }
}
