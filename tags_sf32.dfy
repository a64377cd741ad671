/**
 * s15Fixed16ArrayType's float sibling, `sf32`: a run of big-endian 32-bit
 * IEEE floats after the 8-byte type header.  The model keeps each float as its
 * bit pattern.
 */
module Sf32Tags {
  import opened Wrappers
  import opened Bytes
  import opened Errors
  import opened TagValues

  /** The `count` words after the type header. */
  function WordsAt(raw: seq<byte>, count: nat): (r: seq<u32>)
    requires 8 + 4 * count <= |raw|
    ensures |r| == count
  {
    seq(count, i requires 0 <= i < count => U32(raw, 8 + 4 * i))
  }

  /**
   * sf32Decoder: the body after the header must be whole words; there may be
   * none; value i is the word at 8 + 4i.
   */
  function DecodeSf32(raw: seq<byte>): (r: Result<TagValue, Error>)
    ensures |raw| < 8 ==> r == Failure(TooShort("sf32"))
    ensures |raw| >= 8 && (|raw| - 8) % 4 != 0 ==> r == Failure(Sf32Unaligned)
    ensures r.Success? <==> |raw| >= 8 && (|raw| - 8) % 4 == 0
    ensures r.Success? ==>
              && r.value.Sf32?
              && |r.value.bits| == (|raw| - 8) / 4
              && forall i :: 0 <= i < |r.value.bits| ==> r.value.bits[i] == U32(raw, 8 + 4 * i)
  {
    if |raw| < 8 then Failure(TooShort("sf32"))
    else if (|raw| - 8) % 4 != 0 then Failure(Sf32Unaligned)
    else Success(Sf32(WordsAt(raw, (|raw| - 8) / 4)))
  }

  /** sf32Decoder with the source's loop filling a preallocated array. */
  method Sf32Decoder(raw: seq<byte>) returns (r: Result<TagValue, Error>)
    ensures r == DecodeSf32(raw)
  {
    if |raw| < 8 {
      return Failure(TooShort("sf32"));
    }
    var data := raw[8..];
    if |data| % 4 != 0 {
      return Failure(Sf32Unaligned);
    }
    var count := |data| / 4;
    var values := new u32[count];
    for i := 0 to count
      invariant forall k :: 0 <= k < i ==> values[k] == U32(raw, 8 + 4 * k)
    {
      U32OfSlice(raw, 8, data, i * 4);
      values[i] := U32(data, i * 4);
    }
    assert values[..] == WordsAt(raw, count);
    r := Success(Sf32(values[..]));
  }

  /** The words written after any 8-byte header come back unchanged. */
  lemma {:induction false} Sf32RoundTrip(header: seq<byte>, ws: seq<u32>)
    requires |header| == 8
    ensures DecodeSf32(header + BytesOfU32s(ws)) == Success(Sf32(ws))
  {
    var raw := header + BytesOfU32s(ws);
    forall i | 0 <= i < |ws|
      ensures U32(raw, 8 + 4 * i) == ws[i]
    {
      U32AtWord(raw, header, ws, [], i);
      assert raw == header + BytesOfU32s(ws) + [];
    }
    assert WordsAt(raw, |ws|) == ws;
  }
}
