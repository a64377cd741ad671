/** viewingConditionsType: two XYZ triplets and an illuminant type after the 8-byte type header. */
module ViewTags {
  import opened Wrappers
  import opened Bytes
  import opened Errors
  import opened FixedFloat
  import opened TagValues

  /**
   * viewDecoder: illuminant XYZ at 8, surround XYZ at 20 and the illuminant
   * type at 32 of a block of at least 36 bytes.
   */
  function DecodeView(raw: seq<byte>): (r: Result<TagValue, Error>)
    ensures r.Failure? <==> |raw| < 36
    ensures r.Failure? ==> r.error == TooShort("view")
    ensures r.Success? ==> r.value.View?
  {
    if |raw| < 36 then Failure(TooShort("view"))
    else
      Success(View(ViewingConditionsTag(
        XYZNumber(S15At(raw, 8), S15At(raw, 12), S15At(raw, 16)),
        XYZNumber(S15At(raw, 20), S15At(raw, 24), S15At(raw, 28)),
        U32(raw, 32))))
  }

  /** The seven words of a viewing-conditions block, in order. */
  function ViewWords(ix: int, iy: int, iz: int, sx: int, sy: int, sz: int, illuminantType: u32): (r: seq<u32>)
    requires IsNumerator(ix) && IsNumerator(iy) && IsNumerator(iz)
    requires IsNumerator(sx) && IsNumerator(sy) && IsNumerator(sz)
    ensures |r| == 7
  {
    [SignedWord(ix), SignedWord(iy), SignedWord(iz), SignedWord(sx), SignedWord(sy), SignedWord(sz), illuminantType]
  }

  /**
   * Every field reads back from the word written at its offset, whatever the
   * 8-byte type header holds and whatever follows byte 36.
   */
  lemma {:induction false} ViewRoundTrip(
    header: seq<byte>, ix: int, iy: int, iz: int, sx: int, sy: int, sz: int, illuminantType: u32, tail: seq<byte>)
    requires |header| == 8
    requires IsNumerator(ix) && IsNumerator(iy) && IsNumerator(iz)
    requires IsNumerator(sx) && IsNumerator(sy) && IsNumerator(sz)
    ensures var raw := header + BytesOfU32s(ViewWords(ix, iy, iz, sx, sy, sz, illuminantType)) + tail;
            DecodeView(raw) ==
              Success(View(ViewingConditionsTag(
                XYZNumber(ix as real / 65536.0, iy as real / 65536.0, iz as real / 65536.0),
                XYZNumber(sx as real / 65536.0, sy as real / 65536.0, sz as real / 65536.0),
                illuminantType)))
  {
    var ws := ViewWords(ix, iy, iz, sx, sy, sz, illuminantType);
    var raw := header + BytesOfU32s(ws) + tail;
    S15AtWord(raw, header, ws, tail, 0, ix);
    S15AtWord(raw, header, ws, tail, 1, iy);
    S15AtWord(raw, header, ws, tail, 2, iz);
    S15AtWord(raw, header, ws, tail, 3, sx);
    S15AtWord(raw, header, ws, tail, 4, sy);
    S15AtWord(raw, header, ws, tail, 5, sz);
    U32AtWord(raw, header, ws, tail, 6);
  }

  /** Only the first 36 bytes are read. */
  lemma ViewPrefix(raw: seq<byte>)
    requires |raw| >= 36
    ensures DecodeView(raw) == DecodeView(raw[..36])
  {
    var p := raw[..36];
    assert raw[8..12] == p[8..12] && raw[12..16] == p[12..16] && raw[16..20] == p[16..20];
    assert raw[20..24] == p[20..24] && raw[24..28] == p[24..28] && raw[28..32] == p[28..32];
  }
}
