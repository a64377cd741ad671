/** measurementType: fixed-offset fields after the 8-byte type header. */
module MeasurementTags {
  import opened Wrappers
  import opened Bytes
  import opened Errors
  import opened FixedFloat
  import opened TagValues

  /**
   * measurementDecoder: observer, backing XYZ, geometry, flare and illuminant
   * at offsets 8, 12, 24, 28 and 32 of a block of at least 36 bytes.
   */
  function DecodeMeasurement(raw: seq<byte>): (r: Result<TagValue, Error>)
    ensures r.Failure? <==> |raw| < 36
    ensures r.Failure? ==> r.error == TooShort("meas")
    ensures r.Success? ==> r.value.Measurement?
  {
    if |raw| < 36 then Failure(TooShort("meas"))
    else
      Success(Measurement(MeasurementTag(
        U32(raw, 8),
        XYZNumber(S15At(raw, 12), S15At(raw, 16), S15At(raw, 20)),
        U32(raw, 24),
        S15At(raw, 28),
        U32(raw, 32))))
  }

  /** The seven words of a measurement block, in order. */
  function MeasurementWords(observer: u32, x: int, y: int, z: int, geometry: u32, flare: int, illuminant: u32): (r: seq<u32>)
    requires IsNumerator(x) && IsNumerator(y) && IsNumerator(z) && IsNumerator(flare)
    ensures |r| == 7
  {
    [observer, SignedWord(x), SignedWord(y), SignedWord(z), geometry, SignedWord(flare), illuminant]
  }

  /**
   * Every field reads back from the word written at its offset, whatever the
   * 8-byte type header holds and whatever follows byte 36.
   */
  lemma {:induction false} MeasurementRoundTrip(
    header: seq<byte>, observer: u32, x: int, y: int, z: int, geometry: u32, flare: int, illuminant: u32, tail: seq<byte>)
    requires |header| == 8
    requires IsNumerator(x) && IsNumerator(y) && IsNumerator(z) && IsNumerator(flare)
    ensures var raw := header + BytesOfU32s(MeasurementWords(observer, x, y, z, geometry, flare, illuminant)) + tail;
            DecodeMeasurement(raw) ==
              Success(Measurement(MeasurementTag(
                observer,
                XYZNumber(x as real / 65536.0, y as real / 65536.0, z as real / 65536.0),
                geometry,
                flare as real / 65536.0,
                illuminant)))
  {
    var ws := MeasurementWords(observer, x, y, z, geometry, flare, illuminant);
    var raw := header + BytesOfU32s(ws) + tail;
    U32AtWord(raw, header, ws, tail, 0);
    S15AtWord(raw, header, ws, tail, 1, x);
    S15AtWord(raw, header, ws, tail, 2, y);
    S15AtWord(raw, header, ws, tail, 3, z);
    U32AtWord(raw, header, ws, tail, 4);
    S15AtWord(raw, header, ws, tail, 5, flare);
    U32AtWord(raw, header, ws, tail, 6);
  }

  /** Only the first 36 bytes are read. */
  lemma MeasurementPrefix(raw: seq<byte>)
    requires |raw| >= 36
    ensures DecodeMeasurement(raw) == DecodeMeasurement(raw[..36])
  {
    var p := raw[..36];
    assert raw[12..16] == p[12..16] && raw[16..20] == p[16..20];
    assert raw[20..24] == p[20..24] && raw[28..32] == p[28..32];
  }
}
