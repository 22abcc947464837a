/**
 UTF-8 as defined in section 3 of RFC 3629. A Dafny `char` is a Unicode scalar
 value, so a `string` is exactly what a Rust `String` can hold.
 */
module Utf8 {
  import opened Wrappers

  function EncodeChar(c: char): (b: seq<byte>)
    ensures 1 <= |b| <= 4
  {
    var u := c as int;
    if u < 0x80 then [u]
    else if u < 0x800 then [0xC0 + u / 0x40, 0x80 + u % 0x40]
    else if u < 0x1_0000 then [0xE0 + u / 0x1000, 0x80 + u / 0x40 % 0x40, 0x80 + u % 0x40]
    else [0xF0 + u / 0x4_0000, 0x80 + u / 0x1000 % 0x40, 0x80 + u / 0x40 % 0x40, 0x80 + u % 0x40]
  }

  function Encode(s: string): seq<byte> {
    if s == [] then [] else EncodeChar(s[0]) + Encode(s[1..])
  }

  predicate Tail(b: byte) {
    0x80 <= b < 0xC0
  }

  /** The number of bytes a lead byte announces; 0 when it leads nothing. */
  function Announced(lead: byte): nat {
    if lead < 0x80 then 1
    else if 0xC2 <= lead < 0xE0 then 2
    else if 0xE0 <= lead < 0xF0 then 3
    else if 0xF0 <= lead < 0xF5 then 4
    else 0
  }

  /** `b` is a lead byte with the tail bytes it announces. */
  predicate WellFormed(b: seq<byte>) {
    && 1 <= |b| <= 4 && Announced(b[0]) == |b|
    && (|b| >= 2 ==> Tail(b[1])) && (|b| >= 3 ==> Tail(b[2])) && (|b| >= 4 ==> Tail(b[3]))
  }

  /** The value spelled by a lead byte and its tail bytes. */
  function Spelled(b: seq<byte>): nat
    requires WellFormed(b)
  {
    var lead: int := b[0];
    if |b| == 1 then lead
    else if |b| == 2 then
      var t1: int := b[1];
      (lead - 0xC0) * 0x40 + (t1 - 0x80)
    else if |b| == 3 then
      var t1: int, t2: int := b[1], b[2];
      (lead - 0xE0) * 0x1000 + (t1 - 0x80) * 0x40 + (t2 - 0x80)
    else
      var t1: int, t2: int, t3: int := b[1], b[2], b[3];
      (lead - 0xF0) * 0x4_0000 + (t1 - 0x80) * 0x1000 + (t2 - 0x80) * 0x40 + (t3 - 0x80)
  }

  /** Shortest form only, no surrogates, nothing past U+10FFFF. */
  predicate Legal(u: nat, width: nat) {
    && (u < 0xD800 || 0xE000 <= u <= 0x10_FFFF)
    && (width == 2 ==> 0x80 <= u) && (width == 3 ==> 0x800 <= u) && (width == 4 ==> 0x1_0000 <= u)
  }

  /** The first character of `b`. */
  function DecodeChar(b: seq<byte>): (r: Option<(char, nat)>)
    ensures r.Some? ==> 1 <= r.value.1 <= |b|
  {
    if b == [] then None
    else
      var n := Announced(b[0]);
      if n > |b| || !WellFormed(b[..n]) then None
      else
        var u := Spelled(b[..n]);
        if Legal(u, n) then Some((u as char, n)) else None
  }

  function Decode(b: seq<byte>): Option<string> {
    if b == [] then Some("")
    else match DecodeChar(b)
         case None => None
         case Some((c, n)) =>
           match Decode(b[n..])
           case None => None
           case Some(rest) => Some([c] + rest)
  }

  lemma {:induction false} SpelledChar(c: char)
    ensures WellFormed(EncodeChar(c))
    ensures Spelled(EncodeChar(c)) == c as int && Legal(c as int, |EncodeChar(c)|)
  {
    var u := c as int;
    assert u / 0x40 == u / 0x1000 * 0x40 + u / 0x40 % 0x40;
    assert u / 0x1000 == u / 0x4_0000 * 0x40 + u / 0x1000 % 0x40;
  }

  /** The table of RFC 3629: how many bytes a character takes, what they may be, and what they spell. */
  lemma {:induction false} EncodedForm(c: char)
    ensures var b, u := EncodeChar(c), c as int;
      var lead: int := b[0];
      && |b| == (if u < 0x80 then 1 else if u < 0x800 then 2 else if u < 0x1_0000 then 3 else 4)
      && (|b| == 1 ==> u == lead)
      && (|b| == 2 ==> 0xC2 <= lead <= 0xDF && u == (lead - 0xC0) * 0x40 + Six(b[1]))
      && (|b| == 3 ==> 0xE0 <= lead <= 0xEF && u == ((lead - 0xE0) * 0x40 + Six(b[1])) * 0x40 + Six(b[2]))
      && (|b| == 4 ==>
            0xF0 <= lead <= 0xF4 && u == (((lead - 0xF0) * 0x40 + Six(b[1])) * 0x40 + Six(b[2])) * 0x40 + Six(b[3]))
      && (forall k | 1 <= k < |b| :: 0x80 <= b[k] <= 0xBF)
  {
    SpelledChar(c);
  }

  /** The six bits a tail byte carries. */
  function Six(b: byte): int {
    b - 0x80
  }

  lemma {:induction false} CharRoundTrip(c: char, rest: seq<byte>)
    ensures DecodeChar(EncodeChar(c) + rest) == Some((c, |EncodeChar(c)|))
  {
    var e := EncodeChar(c);
    assert (e + rest)[..|e|] == e;
    SpelledChar(c);
  }

  /** The base-64 digits of a number under a lead digit of any size. */
  lemma Digits(lead: nat, t1: nat, t2: nat, t3: nat)
    requires t1 < 0x40 && t2 < 0x40 && t3 < 0x40
    ensures var u := lead * 0x4_0000 + t1 * 0x1000 + t2 * 0x40 + t3;
      u / 0x4_0000 == lead && u / 0x1000 % 0x40 == t1 && u / 0x40 % 0x40 == t2 && u % 0x40 == t3
  {
    var u := lead * 0x4_0000 + t1 * 0x1000 + t2 * 0x40 + t3;
    assert u / 0x40 == lead * 0x1000 + t1 * 0x40 + t2;
    assert u / 0x1000 == lead * 0x40 + t1;
  }

  lemma SpelledBack3(f: seq<byte>)
    requires |f| == 3 && WellFormed(f) && Legal(Spelled(f), 3)
    ensures EncodeChar(Spelled(f) as char) == f
  {
    Digits(0, f[0] as int - 0xE0, f[1] as int - 0x80, f[2] as int - 0x80);
    assert Spelled(f) / 0x1000 == f[0] as int - 0xE0;
  }

  lemma {:induction false} SpelledBack4(f: seq<byte>)
    requires |f| == 4 && WellFormed(f) && Legal(Spelled(f), 4)
    ensures EncodeChar(Spelled(f) as char) == f
  {
    Digits(f[0] as int - 0xF0, f[1] as int - 0x80, f[2] as int - 0x80, f[3] as int - 0x80);
  }

  lemma {:induction false} SpelledBack(f: seq<byte>)
    requires WellFormed(f) && Legal(Spelled(f), |f|)
    ensures EncodeChar(Spelled(f) as char) == f
  {
    if |f| == 3 {
      SpelledBack3(f);
    } else if |f| == 4 {
      SpelledBack4(f);
    }
  }

  lemma {:induction false} DecodedChar(b: seq<byte>)
    requires DecodeChar(b).Some?
    ensures EncodeChar(DecodeChar(b).value.0) == b[..DecodeChar(b).value.1]
  {
    SpelledBack(b[..DecodeChar(b).value.1]);
  }

  lemma EncodeCons(c: char, s: string)
    ensures Encode([c] + s) == EncodeChar(c) + Encode(s)
  {
    assert ([c] + s)[1..] == s;
  }

  lemma {:induction false} EncodedDecodes(s: string)
    ensures Decode(Encode(s)) == Some(s)
  {
    if s != [] {
      var e, rest := EncodeChar(s[0]), Encode(s[1..]);
      CharRoundTrip(s[0], rest);
      EncodedDecodes(s[1..]);
      assert (e + rest)[|e|..] == rest;
      assert s == [s[0]] + s[1..];
    }
  }

  lemma {:induction false} DecodedHead(b: seq<byte>) returns (c: char, n: nat)
    requires b != [] && Decode(b).Some?
    ensures 1 <= n <= |b| && Decode(b[n..]).Some?
    ensures Encode(Decode(b).value) == b[..n] + Encode(Decode(b[n..]).value) && b == b[..n] + b[n..]
  {
    c, n := DecodeChar(b).value.0, DecodeChar(b).value.1;
    DecodedChar(b);
    EncodeCons(c, Decode(b[n..]).value);
  }

  lemma {:induction false} DecodedEncodes(b: seq<byte>)
    requires Decode(b).Some?
    ensures Encode(Decode(b).value) == b
    decreases |b|
  {
    if b != [] {
      var c, n := DecodedHead(b);
      DecodedEncodes(b[n..]);
    }
  }

  /** A byte string decodes to a text exactly when it is that text's encoding. */
  lemma {:induction false} Utf8Codec(s: string, b: seq<byte>)
    ensures Decode(b) == Some(s) <==> b == Encode(s)
  {
    EncodedDecodes(s);
    if Decode(b).Some? {
      DecodedEncodes(b);
    }
  }

  // ---- character boundaries ----

  /** `p` lies between two characters of `text`, or at one of its ends. */
  predicate IsBoundary(text: string, p: nat) {
    exists k | 0 <= k <= |text| :: |Encode(text[..k])| == p
  }

  lemma BoundaryShift(text: string, p: nat)
    requires text != [] && IsBoundary(text[1..], p)
    ensures IsBoundary(text, p + |EncodeChar(text[0])|)
  {
    var k :| 0 <= k <= |text[1..]| && |Encode(text[1..][..k])| == p;
    assert text[..k + 1][1..] == text[1..][..k];
  }

  /** No byte position is more than three bytes from a boundary on either side. */
  lemma {:induction false} NearBoundaries(text: string, p: nat) returns (back: nat, ahead: nat)
    requires p <= |Encode(text)|
    ensures back < 4 && ahead < 4 && back <= p && p + ahead <= |Encode(text)|
    ensures IsBoundary(text, p - back) && IsBoundary(text, p + ahead)
  {
    assert |Encode(text[..0])| == 0;
    if p == 0 {
      back, ahead := 0, 0;
    } else {
      var n := |EncodeChar(text[0])|;
      if p < n {
        back, ahead := p, n - p;
        assert text[..1][1..] == [];
        assert |Encode(text[..1])| == n;
      } else {
        back, ahead := NearBoundaries(text[1..], p - n);
        BoundaryShift(text, p - n - back);
        BoundaryShift(text, p - n + ahead);
      }
    }
  }
}
