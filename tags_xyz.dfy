/** XYZType: after the 8-byte type header, a list of twelve-byte X, Y, Z triplets. */
module XyzTags {
  import opened Wrappers
  import opened Bytes
  import opened Errors
  import opened FixedFloat
  import opened TagValues

  /** The triplet whose twelve bytes start at `at`. */
  function XyzAt(raw: seq<byte>, at: nat): XYZNumber
    requires at + 12 <= |raw|
  {
    XYZNumber(S15At(raw, at), S15At(raw, at + 4), S15At(raw, at + 8))
  }

  /** The first `count` triplets after the type header. */
  function Triplets(raw: seq<byte>, count: nat): (r: seq<XYZNumber>)
    requires 8 + 12 * count <= |raw|
    ensures |r| == count
  {
    seq(count, i requires 0 <= i < count => XyzAt(raw, 8 + 12 * i))
  }

  /**
   * xyzDecoder: at least one triplet, and nothing but whole triplets after
   * the header; triplet i is read at 8 + 12i.
   */
  function DecodeXyz(raw: seq<byte>): (r: Result<TagValue, Error>)
    ensures |raw| < 20 ==> r == Failure(TooShort("XYZ"))
    ensures |raw| >= 20 && (|raw| - 8) % 12 != 0 ==> r == Failure(XyzLength)
    ensures r.Success? <==> |raw| >= 20 && (|raw| - 8) % 12 == 0
    ensures r.Success? ==>
              && r.value.XYZList?
              && |r.value.numbers| == (|raw| - 8) / 12 >= 1
              && forall i :: 0 <= i < |r.value.numbers| ==> r.value.numbers[i] == XyzAt(raw, 8 + 12 * i)
  {
    if |raw| < 20 then Failure(TooShort("XYZ"))
    else if (|raw| - 8) % 12 != 0 then Failure(XyzLength)
    else
      var count := (|raw| - 8) / 12;
      Success(XYZList(Triplets(raw, count)))
  }

  /** The triplet at 12i in the body is the triplet at 8 + 12i in the block. */
  lemma XyzAtBody(raw: seq<byte>, body: seq<byte>, i: nat)
    requires |raw| >= 8 && body == raw[8..] && 12 * i + 12 <= |body|
    ensures XYZNumber(S15At(body, 12 * i), S15At(body, 12 * i + 4), S15At(body, 12 * i + 8)) == XyzAt(raw, 8 + 12 * i)
  {
    S15AtShift(raw, 8, body, 12 * i);
    S15AtShift(raw, 8, body, 12 * i + 4);
    S15AtShift(raw, 8, body, 12 * i + 8);
  }

  /** xyzDecoder with the source's loop, appending one triplet per twelve bytes of the body. */
  method XyzDecoder(raw: seq<byte>) returns (r: Result<TagValue, Error>)
    ensures r == DecodeXyz(raw)
  {
    if |raw| < 20 {
      return Failure(TooShort("XYZ"));
    }
    var body := raw[8..];
    if |body| % 12 != 0 {
      return Failure(XyzLength);
    }
    var count := |body| / 12;
    var result: seq<XYZNumber> := [];
    var i := 0;
    while i < count
      invariant 0 <= i <= count
      invariant |result| == i
      invariant forall k :: 0 <= k < i ==> result[k] == XyzAt(raw, 8 + 12 * k)
    {
      var base := i * 12;
      var x := S15At(body, base);
      var y := S15At(body, base + 4);
      var z := S15At(body, base + 8);
      XyzAtBody(raw, body, i);
      result := result + [XYZNumber(x, y, z)];
      i := i + 1;
    }
    assert result == Triplets(raw, count);
    r := Success(XYZList(result));
  }

  /** Every numerator written after an 8-byte header reads back as n / 2^16 at 8 + 4k. */
  lemma {:induction false} XyzWordsAt(raw: seq<byte>, header: seq<byte>, ns: seq<int>)
    requires |header| == 8
    requires forall k :: 0 <= k < |ns| ==> IsNumerator(ns[k])
    requires raw == header + BytesOfU32s(SignedWords(ns)) + []
    ensures |raw| == 8 + 4 * |ns|
    ensures forall k :: 0 <= k < |ns| ==> S15At(raw, 8 + 4 * k) == ns[k] as real / 65536.0
  {
    var ws := SignedWords(ns);
    forall k | 0 <= k < |ns|
      ensures 8 + 4 * k + 4 <= |raw| && S15At(raw, 8 + 4 * k) == ns[k] as real / 65536.0
    {
      S15AtWord(raw, header, ws, [], k, ns[k]);
    }
  }

  /**
   * A block whose values at 8 + 4k are vs, in whole triplets, decodes to the
   * triplets of vs in order.
   */
  lemma XyzDecodesTo(raw: seq<byte>, vs: seq<real>, count: nat)
    requires |raw| == 8 + 12 * count && count >= 1 && |vs| == 3 * count
    requires forall k :: 0 <= k < |vs| ==> S15At(raw, 8 + 4 * k) == vs[k]
    ensures var r := DecodeXyz(raw);
            && r.Success? && |r.value.numbers| == count
            && forall i :: 0 <= i < count ==> r.value.numbers[i] == XYZNumber(vs[3 * i], vs[3 * i + 1], vs[3 * i + 2])
  {
    forall i | 0 <= i < count
      ensures XyzAt(raw, 8 + 12 * i) == XYZNumber(vs[3 * i], vs[3 * i + 1], vs[3 * i + 2])
    {
      var j := 3 * i;
      assert S15At(raw, 8 + 4 * j) == vs[j];
      assert S15At(raw, 8 + 4 * (j + 1)) == vs[j + 1];
      assert S15At(raw, 8 + 4 * (j + 2)) == vs[j + 2];
      assert 8 + 4 * j == 8 + 12 * i && 8 + 4 * (j + 1) == 8 + 12 * i + 4 && 8 + 4 * (j + 2) == 8 + 12 * i + 8;
    }
  }

  /**
   * Numerators written three by three after any 8-byte header read back as
   * triplets of n / 2^16, in order.
   */
  lemma {:induction false} XyzRoundTrip(header: seq<byte>, ns: seq<int>, count: nat)
    requires |header| == 8 && count >= 1 && |ns| == 3 * count
    requires forall i :: 0 <= i < |ns| ==> IsNumerator(ns[i])
    ensures var r := DecodeXyz(header + BytesOfU32s(SignedWords(ns)));
            && r.Success? && |r.value.numbers| == count
            && forall i :: 0 <= i < count ==>
                 r.value.numbers[i] == XYZNumber(ns[3 * i] as real / 65536.0, ns[3 * i + 1] as real / 65536.0,
                                                 ns[3 * i + 2] as real / 65536.0)
  {
    var raw := header + BytesOfU32s(SignedWords(ns));
    assert raw == header + BytesOfU32s(SignedWords(ns)) + [];
    XyzWordsAt(raw, header, ns);
    var vs := seq(|ns|, k requires 0 <= k < |ns| => ns[k] as real / 65536.0);
    XyzDecodesTo(raw, vs, count);
  }
}
