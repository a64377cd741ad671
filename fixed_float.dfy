/** The ICC s15Fixed16Number: a signed 16.16 fixed-point number, big-endian. */
module FixedFloat {
  import opened Bytes

  /**
   * readS15Fixed16BE: the signed high half plus the unsigned low half over 65536.
   * Its value is the two's-complement 32-bit word divided by 2^16.  The source
   * panics on fewer than four bytes; here that is the precondition.
   */
  function ReadS15Fixed16BE(raw: seq<byte>): (r: real)
    requires |raw| >= 4
    ensures r * 65536.0 == Int32(raw, 0) as real
    ensures -32768.0 <= r < 32768.0
  {
    var msb := Signed16(raw[0] as int * 0x100 + raw[1] as int);
    var lsb := raw[2] as int * 0x100 + raw[3] as int;
    msb as real + lsb as real / 65536.0
  }

  /** The s15Fixed16 number whose four bytes start at `at`. */
  function S15At(raw: seq<byte>, at: nat): real
    requires at + 4 <= |raw|
  {
    ReadS15Fixed16BE(raw[at..at + 4])
  }

  /** A number read from a slice is the number read at the shifted position of the whole. */
  lemma S15AtShift(data: seq<byte>, off: nat, sub: seq<byte>, at: nat)
    requires off + |sub| <= |data| && sub == data[off..off + |sub|]
    requires at + 4 <= |sub|
    ensures S15At(sub, at) == S15At(data, off + at)
  {
    SliceOfSlice(data, off, sub, at, 4);
  }

  /** The four bytes of the fixed-point number n / 2^16 (n a 32-bit signed integer). */
  function EncodeS15Fixed16(n: int): (r: seq<byte>)
    requires IsNumerator(n)
    ensures |r| == 4
  {
    BytesOfU32(SignedWord(n))
  }

  /** The 32-bit two's-complement pattern of n. */
  function SignedWord(n: int): u32
    requires IsNumerator(n)
  {
    if n < 0 then n + 0x1_0000_0000 else n
  }

  /** A signed 32-bit numerator: the numbers an s15Fixed16 word can carry, times 2^16. */
  predicate IsNumerator(n: int) {
    -TwoTo31 <= n < TwoTo31
  }

  /** The patterns of a list of numerators. */
  function SignedWords(ns: seq<int>): (r: seq<u32>)
    requires forall i :: 0 <= i < |ns| ==> IsNumerator(ns[i])
    ensures |r| == |ns|
    ensures forall i :: 0 <= i < |ns| ==> r[i] == SignedWord(ns[i])
  {
    seq(|ns|, i requires 0 <= i < |ns| => SignedWord(ns[i]))
  }

  /**
   * In a block laid out as a header, a run of words and a tail, a word that
   * holds the pattern of n reads back as n / 2^16.
   */
  lemma {:induction false} S15AtWord(raw: seq<byte>, header: seq<byte>, ws: seq<u32>, tail: seq<byte>, i: nat, n: int)
    requires raw == header + BytesOfU32s(ws) + tail && i < |ws|
    requires IsNumerator(n) && ws[i] == SignedWord(n)
    ensures |header| + 4 * i + 4 <= |raw|
    ensures S15At(raw, |header| + 4 * i) == n as real / 65536.0
  {
    WordAt(raw, header, ws, tail, i);
    DecodeEncode(n);
  }

  lemma BytesOfWord(s: seq<byte>)
    requires |s| >= 4
    ensures BytesOfU32(U32(s, 0)) == s[..4]
  {
    var hi, lo := U16(s, 0), U16(s, 2);
    assert U32(s, 0) / 0x1_0000 == hi && U32(s, 0) % 0x1_0000 == lo;
    assert hi / 0x100 == s[0] && hi % 0x100 == s[1];
    assert lo / 0x100 == s[2] && lo % 0x100 == s[3];
  }

  /** Decoding an encoded number gives back exactly n / 2^16. */
  lemma DecodeEncode(n: int)
    requires -TwoTo31 <= n < TwoTo31
    ensures ReadS15Fixed16BE(EncodeS15Fixed16(n)) == n as real / 65536.0
  {
    U32OfBytes(SignedWord(n));
  }

  /** Two words with the same value are the same four bytes: the reading loses nothing. */
  lemma Injective(a: seq<byte>, b: seq<byte>)
    requires |a| == 4 && |b| == 4
    requires ReadS15Fixed16BE(a) == ReadS15Fixed16BE(b)
    ensures a == b
  {
    BytesOfWord(a);
    BytesOfWord(b);
    assert a[..4] == a && b[..4] == b;
  }

  /** The worked values: 1.0, 2.5, -1.0, -1.5 and 0. */
  lemma Examples()
    ensures ReadS15Fixed16BE([0x00, 0x01, 0x00, 0x00]) == 1.0
    ensures ReadS15Fixed16BE([0x00, 0x02, 0x80, 0x00]) == 2.5
    ensures ReadS15Fixed16BE([0xFF, 0xFF, 0x00, 0x00]) == -1.0
    ensures ReadS15Fixed16BE([0xFF, 0xFE, 0x80, 0x00]) == -1.5
    ensures ReadS15Fixed16BE([0x00, 0x00, 0x00, 0x00]) == 0.0
  {
  }
}
