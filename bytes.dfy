/** Unsigned integer widths and the big-endian readers of `encoding/binary`. */
module Bytes {

  type byte = b: int | 0 <= b < 0x100
  type u16 = x: int | 0 <= x < 0x1_0000
  type u32 = x: int | 0 <= x < 0x1_0000_0000

  const TwoTo16: int := 0x1_0000
  const TwoTo31: int := 0x8000_0000
  const TwoTo32: int := 0x1_0000_0000

  /** binary.BigEndian.Uint16(s[at:at+2]) */
  function U16(s: seq<byte>, at: nat): u16
    requires at + 2 <= |s|
  {
    s[at] as int * 0x100 + s[at + 1] as int
  }

  /** binary.BigEndian.Uint32(s[at:at+4]) */
  function U32(s: seq<byte>, at: nat): u32
    requires at + 4 <= |s|
  {
    U16(s, at) as int * 0x1_0000 + U16(s, at + 2) as int
  }

  /** The two's-complement reading of a 16-bit pattern (Go's int16 conversion). */
  function Signed16(x: u16): int {
    if x < 0x8000 then x else x - 0x1_0000
  }

  /** The two's-complement reading of the 32-bit big-endian word at `at`. */
  function Int32(s: seq<byte>, at: nat): int
    requires at + 4 <= |s|
  {
    var w := U32(s, at);
    if w < 0x8000_0000 then w else w - 0x1_0000_0000
  }

  /** Go's uint32(x) conversion of a non-negative int: wrap-around modulo 2^32. */
  function Wrap32(x: int): u32 {
    x % 0x1_0000_0000
  }

  function BytesOfU16(x: u16): (r: seq<byte>)
    ensures |r| == 2
  {
    [x / 0x100, x % 0x100]
  }

  /** binary.BigEndian.PutUint32 */
  function BytesOfU32(x: u32): (r: seq<byte>)
    ensures |r| == 4
  {
    BytesOfU16(x / 0x1_0000) + BytesOfU16(x % 0x1_0000)
  }

  lemma U32OfBytes(x: u32)
    ensures U32(BytesOfU32(x), 0) == x
  {
  }

  /** Go's string(b) conversion: each byte becomes one character. */
  function Chars(s: seq<byte>): (r: string)
    ensures |r| == |s|
  {
    seq(|s|, i requires 0 <= i < |s| => s[i] as char)
  }

  /** The bytes of a string whose characters are all below 256. */
  function BytesOf(s: string): (r: seq<byte>)
    requires forall i :: 0 <= i < |s| ==> s[i] as int < 0x100
    ensures |r| == |s|
  {
    seq(|s|, i requires 0 <= i < |s| => s[i] as int)
  }

  lemma CharsOfBytesOf(s: string)
    requires forall i :: 0 <= i < |s| ==> s[i] as int < 0x100
    ensures Chars(BytesOf(s)) == s
  {
  }

  /** `n` copies of `x`, as a Go slice made with `make` and filled with one value. */
  function Repeat<T>(x: T, n: nat): (r: seq<T>)
    ensures |r| == n
    ensures forall i :: 0 <= i < n ==> r[i] == x
  {
    seq(n, _ => x)
  }

  /** The big-endian bytes of a list of 16-bit values. */
  function BytesOfU16s(us: seq<u16>): (r: seq<byte>)
    ensures |r| == 2 * |us|
  {
    if us == [] then [] else BytesOfU16s(us[..|us| - 1]) + BytesOfU16(us[|us| - 1])
  }

  lemma {:induction false} BytesOfU16sAt(us: seq<u16>, i: nat)
    requires i < |us|
    ensures BytesOfU16s(us)[2 * i..2 * i + 2] == BytesOfU16(us[i])
  {
    var n := |us|;
    var prev, last := BytesOfU16s(us[..n - 1]), BytesOfU16(us[n - 1]);
    assert BytesOfU16s(us) == prev + last;
    assert |prev| == 2 * n - 2;
    if i < n - 1 {
      assert (prev + last)[2 * i..2 * i + 2] == prev[2 * i..2 * i + 2];
      BytesOfU16sAt(us[..n - 1], i);
      assert us[..n - 1][i] == us[i];
    } else {
      assert (prev + last)[2 * i..2 * i + 2] == last;
    }
  }

  /** Value i reads back from bytes 2i and 2i+1. */
  lemma U16sOfBytes(us: seq<u16>, i: nat)
    requires i < |us|
    ensures U16(BytesOfU16s(us), 2 * i) == us[i]
  {
    var b := BytesOfU16s(us);
    BytesOfU16sAt(us, i);
    assert b[2 * i] == BytesOfU16(us[i])[0] && b[2 * i + 1] == BytesOfU16(us[i])[1];
  }

  /** The big-endian bytes of a list of 32-bit words. */
  function BytesOfU32s(ws: seq<u32>): (r: seq<byte>)
    ensures |r| == 4 * |ws|
  {
    if ws == [] then [] else BytesOfU32s(ws[..|ws| - 1]) + BytesOfU32(ws[|ws| - 1])
  }

  lemma {:induction false} BytesOfU32sAt(ws: seq<u32>, i: nat)
    requires i < |ws|
    ensures BytesOfU32s(ws)[4 * i..4 * i + 4] == BytesOfU32(ws[i])
  {
    var n := |ws|;
    var prev, last := BytesOfU32s(ws[..n - 1]), BytesOfU32(ws[n - 1]);
    assert BytesOfU32s(ws) == prev + last;
    assert |prev| == 4 * n - 4;
    if i < n - 1 {
      assert (prev + last)[4 * i..4 * i + 4] == prev[4 * i..4 * i + 4];
      BytesOfU32sAt(ws[..n - 1], i);
      assert ws[..n - 1][i] == ws[i];
    } else {
      assert (prev + last)[4 * i..4 * i + 4] == last;
    }
  }

  /**
   * In a block laid out as a header, a run of words and a tail, word i sits
   * at |header| + 4i.
   */
  lemma {:induction false} WordAt(raw: seq<byte>, header: seq<byte>, ws: seq<u32>, tail: seq<byte>, i: nat)
    requires raw == header + BytesOfU32s(ws) + tail && i < |ws|
    ensures |header| + 4 * i + 4 <= |raw|
    ensures raw[|header| + 4 * i..|header| + 4 * i + 4] == BytesOfU32(ws[i])
  {
    MiddleSlice(raw, header, BytesOfU32s(ws), tail, 4 * i, 4);
    BytesOfU32sAt(ws, i);
  }

  /** A slice inside the middle part of a three-part sequence is the slice of that part. */
  lemma MiddleSlice<T>(s: seq<T>, a: seq<T>, b: seq<T>, c: seq<T>, x: nat, n: nat)
    requires s == a + b + c && x + n <= |b|
    ensures |a| + x + n <= |s|
    ensures s[|a| + x..|a| + x + n] == b[x..x + n]
  {
    var l, r := s[|a| + x..|a| + x + n], b[x..x + n];
    forall j | 0 <= j < n
      ensures l[j] == r[j]
    {
      assert s[|a| + x + j] == b[x + j];
    }
  }

  /** The word read at |header| + 4i of such a block is word i. */
  lemma {:induction false} U32AtWord(raw: seq<byte>, header: seq<byte>, ws: seq<u32>, tail: seq<byte>, i: nat)
    requires raw == header + BytesOfU32s(ws) + tail && i < |ws|
    ensures |header| + 4 * i + 4 <= |raw|
    ensures U32(raw, |header| + 4 * i) == ws[i]
  {
    var at := |header| + 4 * i;
    WordAt(raw, header, ws, tail, i);
    U32OfBytes(ws[i]);
    U32OfSlice(raw, at, raw[at..at + 4], 0);
  }

  /** A slice of a slice is the slice of the whole at the shifted position. */
  lemma SliceOfSlice<T>(data: seq<T>, off: nat, sub: seq<T>, at: nat, n: nat)
    requires off + |sub| <= |data| && sub == data[off..off + |sub|]
    requires at + n <= |sub|
    ensures sub[at..at + n] == data[off + at..off + at + n]
  {
    var a, b := sub[at..at + n], data[off + at..off + at + n];
    forall j | 0 <= j < n
      ensures a[j] == b[j]
    {
      assert sub[at + j] == data[off + at + j];
    }
  }

  lemma U16OfSlice(data: seq<byte>, off: nat, sub: seq<byte>, at: nat)
    requires off + |sub| <= |data| && sub == data[off..off + |sub|]
    requires at + 2 <= |sub|
    ensures U16(sub, at) == U16(data, off + at)
  {
    assert sub[at] == data[off + at] && sub[at + 1] == data[off + at + 1];
  }

  lemma U32OfSlice(data: seq<byte>, off: nat, sub: seq<byte>, at: nat)
    requires off + |sub| <= |data| && sub == data[off..off + |sub|]
    requires at + 4 <= |sub|
    ensures U32(sub, at) == U32(data, off + at)
  {
    assert sub[at] == data[off + at] && sub[at + 1] == data[off + at + 1];
    assert sub[at + 2] == data[off + at + 2] && sub[at + 3] == data[off + at + 3];
  }

  /** A u32 written big-endian at `off` is read back there. */
  lemma U32At(data: seq<byte>, off: nat, x: u32)
    requires off + 4 <= |data| && data[off..off + 4] == BytesOfU32(x)
    ensures U32(data, off) == x
  {
    U32OfBytes(x);
    U32OfSlice(data, off, BytesOfU32(x), 0);
  }

  /** A suffix made of two parts: the first part and then the second, from the same position. */
  lemma DropAppend<T>(s: seq<T>, k: nat, a: seq<T>, b: seq<T>)
    requires k <= |s| && s[k..] == a + b
    ensures s[k..k + |a|] == a && s[k + |a|..] == b
  {
    assert s[k..k + |a|] == (a + b)[..|a|];
    assert s[k + |a|..] == (a + b)[|a|..];
  }
}
