/** Reading an arbitrary byte range of a text that can only be cut between characters. */
module ByteReader {
  import opened Wrappers
  import opened Utf8

  const USIZE_MAX: nat := 0xFFFF_FFFF_FFFF_FFFF

  function SaturatingAdd(a: nat, b: nat): nat {
    if a + b > USIZE_MAX then USIZE_MAX else a + b
  }

  function Min(a: nat, b: nat): nat {
    if a < b then a else b
  }

  /** The text library's byte slice: refused unless both cuts fall between characters. */
  function SliceDelta(text: string, start: nat, stop: nat): Option<seq<byte>>
    requires start <= stop <= |Encode(text)|
  {
    if IsBoundary(text, start) && IsBoundary(text, stop) then Some(Encode(text)[start..stop]) else None
  }

  /** `out` is bytes `offset..offset + size` of `s`, or as many of them as there are. */
  predicate IsRange(s: seq<byte>, offset: nat, size: nat, out: seq<byte>) {
    && |out| == (if |s| <= offset then 0 else if |s| - offset < size then |s| - offset else size)
    && forall i | 0 <= i < |out| :: out[i] == s[offset + i]
  }

  /** A range is one thing; a read of everything gives everything; adjacent reads make up the wider one. */
  lemma RangesAddUp(s: seq<byte>, offset: nat, a: nat, b: nat, x: seq<byte>, y: seq<byte>, z: seq<byte>)
    requires IsRange(s, offset, a, x) && IsRange(s, offset + a, b, y) && IsRange(s, offset, a + b, z)
    ensures z == x + y
    ensures offset == 0 && |s| <= a ==> x == s && y == []
    ensures |s| <= offset ==> z == []
    ensures forall w :: IsRange(s, offset, a, w) ==> w == x
  {
  }

  lemma Reslice(s: seq<byte>, start: nat, stop: nat, from: nat, to: nat)
    requires start <= stop <= |s| && from <= to <= stop - start
    ensures s[start..stop][from..to] == s[start + from..start + to]
  {
    assert forall i | 0 <= i < to - from :: s[start..stop][from..to][i] == s[start + from..start + to][i];
  }

  /**
   Any range of bytes can be read, including one that starts or ends inside a
   character or past the end. The widened slice always exists, so the fall
   through after the loops never happens.
   */
  method ReadBytes(text: string, offset: nat, size: nat) returns (out: seq<byte>)
    requires |Encode(text)| <= USIZE_MAX
    ensures IsRange(Encode(text), offset, size, out)
  {
    hide Encode, IsBoundary;
    var len := |Encode(text)|;
    if offset >= len || size == 0 {
      return [];
    }
    var end := Min(len, SaturatingAdd(offset, size));
    ghost var back, _ := NearBoundaries(text, offset);
    ghost var _, ahead := NearBoundaries(text, end);
    for widenStart := 0 to 4
      invariant widenStart <= back
    {
      for widenEnd := 0 to 4
        invariant widenStart == back ==> widenEnd <= ahead
      {
        var start := if widenStart <= offset then offset - widenStart else 0;
        var stop := Min(len, end + widenEnd);
        var delta := SliceDelta(text, start, stop);
        if delta.None? {
          continue;
        }
        var bytes := delta.value;
        var from := offset - start;
        var to := from + (end - offset);
        Reslice(Encode(text), start, stop, from, to);
        return bytes[from..to];
      }
    }
    out := [];
  }
}
