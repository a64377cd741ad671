/**
 * The text-carrying tag types: textDescriptionType (v2 "desc"), textType,
 * signatureType and multiLocalizedUnicodeType, and the big-endian UTF-16
 * code-unit reader they share.
 */
module TextTags {
  import opened Wrappers
  import opened Bytes
  import opened Errors
  import opened Header
  import opened Folds
  import opened TagValues

  // ---------------------------------------------------------------- UTF-16 code units

  /** The big-endian 16-bit code units of an even number of bytes. */
  function CodeUnits(data: seq<byte>): (r: seq<u16>)
    requires |data| % 2 == 0
    ensures |r| == |data| / 2
  {
    seq(|data| / 2, i requires 0 <= i < |data| / 2 => U16(data, 2 * i))
  }

  /** decodeUTF16BE up to the utf16.Decode call: fills one code unit per byte pair. */
  method DecodeUTF16BE(data: seq<byte>) returns (r: seq<u16>)
    requires |data| % 2 == 0
    ensures r == CodeUnits(data)
  {
    var codeUnits := new u16[|data| / 2];
    var i := 0;
    while i < |data|
      invariant 0 <= i <= |data| && i % 2 == 0
      invariant forall k :: 0 <= k < i / 2 ==> codeUnits[k] == U16(data, 2 * k)
    {
      codeUnits[i / 2] := U16(data, i);
      i := i + 2;
    }
    r := codeUnits[..];
  }

  /** Reading back the bytes of some code units gives the same code units. */
  lemma CodeUnitsRoundTrip(us: seq<u16>)
    ensures CodeUnits(BytesOfU16s(us)) == us
  {
    var b := BytesOfU16s(us);
    var r := CodeUnits(b);
    forall i | 0 <= i < |us|
      ensures r[i] == us[i]
    {
      U16sOfBytes(us, i);
    }
  }

  // ---------------------------------------------------------------- NUL handling

  /** bytes.IndexByte(s, 0) and the cut in front of it: the bytes before the first NUL. */
  function CutAtNul(s: seq<byte>): (r: seq<byte>)
    ensures r <= s
    ensures forall i :: 0 <= i < |r| ==> r[i] != 0
    ensures |r| < |s| ==> s[|r|] == 0
  {
    if s == [] then []
    else if s[0] == 0 then []
    else
      var rest := CutAtNul(s[1..]);
      assert s == [s[0]] + s[1..];
      [s[0]] + rest
  }

  /** A text without NULs, then a NUL, is cut back to the text. */
  lemma {:induction false} CutAtNulOfText(text: seq<byte>, rest: seq<byte>)
    requires forall i :: 0 <= i < |text| ==> text[i] != 0
    ensures CutAtNul(text + [0] + rest) == text
  {
    var s := text + [0] + rest;
    if text == [] {
      assert s[0] == 0;
    } else {
      assert s[0] == text[0];
      assert s[1..] == text[1..] + [0] + rest;
      CutAtNulOfText(text[1..], rest);
    }
  }

  predicate IsNul(b: byte) {
    b == 0
  }

  /** bytes.TrimRight(s, "\x00"): drops trailing NUL bytes only. */
  function TrimNuls(s: seq<byte>): (r: seq<byte>)
    ensures r <= s
    ensures forall i :: |r| <= i < |s| ==> IsNul(s[i])
    ensures |r| > 0 ==> !IsNul(r[|r| - 1])
  {
    if |s| > 0 && IsNul(s[|s| - 1]) then TrimNuls(s[..|s| - 1]) else s
  }

  // ---------------------------------------------------------------- textType and signatureType

  /** textDecoder: the body after the eight-byte type header, trailing NULs removed and spaces kept. */
  function DecodeText(raw: seq<byte>): (r: Result<TagValue, Error>)
    ensures r.Failure? <==> |raw| < 8
    ensures r.Failure? ==> r.error == TooShort("text")
    ensures r.Success? ==> r.value.Text? && r.value.text == Chars(TrimNuls(raw[8..]))
  {
    if |raw| < 8 then Failure(TooShort("text")) else Success(Text(Chars(TrimNuls(raw[8..]))))
  }

  /** A text without a trailing NUL, written after an eight-byte header and padded with NULs, reads back as itself. */
  lemma TextRoundTrip(header: seq<byte>, text: seq<byte>, pad: nat)
    requires |header| == 8
    requires |text| > 0 ==> text[|text| - 1] != 0
    ensures DecodeText(header + text + Repeat(0, pad)) == Success(Text(Chars(text)))
  {
    var raw := header + text + Repeat(0, pad);
    var body := raw[8..];
    assert body == text + Repeat(0, pad);
    TrimNulsOfPadded(text, pad);
  }

  lemma {:induction false} TrimNulsOfPadded(text: seq<byte>, pad: nat)
    requires |text| > 0 ==> text[|text| - 1] != 0
    ensures TrimNuls(text + Repeat(0, pad)) == text
  {
    var s := text + Repeat(0, pad);
    if pad == 0 {
      assert s == text;
    } else {
      assert s[|s| - 1] == 0;
      assert s[..|s| - 1] == text + Repeat(0, pad - 1);
      TrimNulsOfPadded(text, pad - 1);
    }
  }

  /**
   * sigDecoder: the stringed form of bytes 8..12.  Only eight bytes are
   * checked; a block of 8 to 11 bytes makes the source's slice panic.
   */
  function DecodeSig(raw: seq<byte>): (r: Result<TagValue, Error>)
    ensures |raw| < 8 ==> r == Failure(TooShort("sig"))
    ensures 8 <= |raw| < 12 ==> r == Failure(Panic(SignatureUnder12Bytes))
    ensures |raw| >= 12 ==> r == Success(Signature(Stringed(raw[8..12])))
  {
    if |raw| < 8 then Failure(TooShort("sig"))
    else if |raw| < 12 then Failure(Panic(SignatureUnder12Bytes))
    else Success(Signature(Stringed(raw[8..12])))
  }

  // ---------------------------------------------------------------- textDescriptionType

  /**
   * descDecoder.  After the ASCII count and text come an optional Unicode
   * count and code units and, if any byte is left, a script-code count byte
   * and that many bytes.
   */
  function DecodeDesc(raw: seq<byte>): (r: Result<TagValue, Error>)
    ensures |raw| < 12 ==> r == Failure(TooShort("desc"))
    ensures |raw| >= 12 && (U32(raw, 8) < 1 || 12 + U32(raw, 8) > |raw|) ==> r == Failure(DescAsciiLength)
    ensures r.Success? ==>
              && r.value.Desc?
              && 1 <= U32(raw, 8) && 12 + U32(raw, 8) <= |raw|
              && r.value.desc.ascii == Chars(CutAtNul(raw[12..12 + U32(raw, 8)]))
    ensures |raw| >= 12 && 1 <= U32(raw, 8) && 12 + U32(raw, 8) <= |raw| < 16 + U32(raw, 8) ==>
              r == Success(Desc(DescTag(Chars(CutAtNul(raw[12..12 + U32(raw, 8)])), [], "")))
    ensures r.Failure? ==> r.error in {TooShort("desc"), DescAsciiLength, DescMissingUnicode, DescMissingScript}
  {
    if |raw| < 12 then Failure(TooShort("desc"))
    else
      var asciiLen := U32(raw, 8);
      if asciiLen < 1 || 12 + asciiLen > |raw| then Failure(DescAsciiLength)
      else DescUnicode(raw, 12 + asciiLen, Chars(CutAtNul(raw[12..12 + asciiLen])))
  }

  /** The `count` code units that start at byte `start`. */
  function UnitsAt(raw: seq<byte>, start: nat, count: nat): (r: seq<u16>)
    requires start + 2 * count <= |raw|
    ensures |r| == count
  {
    CodeUnits(raw[start..start + 2 * count])
  }

  /** The part of descDecoder after the ASCII text, which starts the Unicode count at `offset`. */
  function DescUnicode(raw: seq<byte>, offset: nat, ascii: string): (r: Result<TagValue, Error>)
    ensures |raw| < offset + 4 ==> r == Success(Desc(DescTag(ascii, [], "")))
    ensures r.Success? ==> r.value.Desc? && r.value.desc.ascii == ascii
    ensures r.Failure? ==> r.error == DescMissingUnicode || r.error == DescMissingScript
  {
    if |raw| < offset + 4 then Success(Desc(DescTag(ascii, [], "")))
    else
      var unicodeCount := U32(raw, offset);
      var unicodeStart := offset + 4;
      if |raw| < unicodeStart + 2 * unicodeCount then Failure(DescMissingUnicode)
      else
        DescScript(raw, unicodeStart + 2 * unicodeCount, ascii, UnitsAt(raw, unicodeStart, unicodeCount))
  }

  /** The optional script code: a count byte at `at` and that many bytes. */
  function DescScript(raw: seq<byte>, at: nat, ascii: string, unicode: seq<u16>): (r: Result<TagValue, Error>)
    ensures |raw| <= at ==> r == Success(Desc(DescTag(ascii, unicode, "")))
    ensures at < |raw| <= at + raw[at] ==> r == Failure(DescMissingScript)
    ensures at < |raw| && at + raw[at] < |raw| ==> r == Success(Desc(DescTag(ascii, unicode, Chars(raw[at + 1..at + 1 + raw[at]]))))
  {
    if |raw| <= at then Success(Desc(DescTag(ascii, unicode, "")))
    else
      var scriptCount := raw[at] as nat;
      if |raw| < at + 1 + scriptCount then Failure(DescMissingScript)
      else Success(Desc(DescTag(ascii, unicode, Chars(raw[at + 1..at + 1 + scriptCount]))))
  }

  /** The layout descDecoder reads: ASCII count (with its NUL), text, NUL, Unicode count, units, script count, script. */
  function EncodeDesc(header: seq<byte>, ascii: seq<byte>, unicode: seq<u16>, script: seq<byte>): (r: seq<byte>)
    requires |header| == 8 && |ascii| + 1 < 0x1_0000_0000 && |unicode| < 0x1_0000_0000 && |script| < 0x100
  {
    header + (BytesOfU32(|ascii| + 1) + (ascii + ([0] + (BytesOfU32(|unicode|) +
      (BytesOfU16s(unicode) + ([|script| as byte] + script))))))
  }

  /** The count, the ASCII text and what follows it in an encoded description. */
  lemma DescEncodedHead(raw: seq<byte>, header: seq<byte>, count: seq<byte>, ascii: seq<byte>, q: seq<byte>)
    requires |header| == 8 && |count| == 4 && raw == header + (count + (ascii + ([0] + q)))
    ensures && raw[8..12] == count
            && raw[12..12 + |ascii| + 1] == ascii + [0]
            && raw[12 + |ascii| + 1..] == q
  {
    var p := ascii + ([0] + q);
    var o := count + p;
    DropAppend(raw, 0, header, o);
    DropAppend(raw, 8, count, p);
    assert p == (ascii + [0]) + q;
    DropAppend(raw, 12, ascii + [0], q);
  }

  /** The Unicode count, the code-unit bytes and the script code of an encoded description, from `k` on. */
  lemma DescEncodedTail(raw: seq<byte>, k: nat, count: seq<byte>, units: seq<byte>, script: seq<byte>)
    requires |count| == 4 && |script| < 0x100 && k <= |raw|
    requires raw[k..] == count + (units + ([|script| as byte] + script))
    ensures var at := k + 4 + |units|;
            && |raw| == at + 1 + |script|
            && raw[k..k + 4] == count
            && raw[k + 4..at] == units
            && raw[at] == |script|
            && raw[at + 1..] == script
  {
    var at := k + 4 + |units|;
    var t := [|script| as byte] + script;
    DropAppend(raw, k, count, units + t);
    DropAppend(raw, k + 4, units, t);
    DropAppend(raw, at, [|script| as byte], script);
    assert raw[at] == raw[at..][0];
  }

  /** descDecoder past a well-formed ASCII count goes on to the Unicode part. */
  lemma DescAsciiStep(raw: seq<byte>, n: nat)
    requires n >= 1 && 12 + n <= |raw| && U32(raw, 8) == n
    ensures DecodeDesc(raw) == DescUnicode(raw, 12 + n, Chars(CutAtNul(raw[12..12 + n])))
  {
  }

  /** Past a Unicode count whose code units fit, descDecoder goes on to the script code. */
  lemma DescUnicodeStep(raw: seq<byte>, offset: nat, u: nat, text: string)
    requires offset + 4 + 2 * u <= |raw| && U32(raw, offset) == u
    ensures DescUnicode(raw, offset, text) == DescScript(raw, offset + 4 + 2 * u, text, UnitsAt(raw, offset + 4, u))
  {
  }

  /** A script count followed by exactly that many bytes is the script code. */
  lemma DescScriptStep(raw: seq<byte>, at: nat, text: string, unicode: seq<u16>, script: seq<byte>)
    requires |raw| == at + 1 + |script| && raw[at] == |script| && raw[at + 1..] == script
    ensures DescScript(raw, at, text, unicode) == Success(Desc(DescTag(text, unicode, Chars(script))))
  {
    assert raw[at + 1..at + 1 + |script|] == script;
  }

  /** Code units laid out from `start` are read back by UnitsAt. */
  lemma UnitsAtOf(raw: seq<byte>, start: nat, unicode: seq<u16>)
    requires start + 2 * |unicode| <= |raw| && raw[start..start + 2 * |unicode|] == BytesOfU16s(unicode)
    ensures UnitsAt(raw, start, |unicode|) == unicode
  {
    CodeUnitsRoundTrip(unicode);
  }

  /** Reading back a Unicode count, its code units and a script code from `k` on. */
  lemma DescTailRoundTrip(raw: seq<byte>, k: nat, text: string, unicode: seq<u16>, script: seq<byte>)
    requires var at := k + 4 + 2 * |unicode|;
             && |raw| == at + 1 + |script|
             && U32(raw, k) == |unicode|
             && UnitsAt(raw, k + 4, |unicode|) == unicode
             && raw[at] == |script|
             && raw[at + 1..] == script
    ensures DescUnicode(raw, k, text) == Success(Desc(DescTag(text, unicode, Chars(script))))
  {
    DescScriptStep(raw, k + 4 + 2 * |unicode|, text, unicode, script);
    DescUnicodeStep(raw, k, |unicode|, text);
  }

  /** Where the parts of a description laid out as descDecoder reads it lie. */
  lemma DescLayout(raw: seq<byte>, header: seq<byte>, count: seq<byte>, ascii: seq<byte>,
                   unicodeCount: seq<byte>, units: seq<byte>, script: seq<byte>)
    requires |header| == 8 && |count| == 4 && |unicodeCount| == 4 && |script| < 0x100
    requires raw == header + (count + (ascii + ([0] + (unicodeCount + (units + ([|script| as byte] + script))))))
    ensures var k := 12 + |ascii| + 1;
            var at := k + 4 + |units|;
            && |raw| == at + 1 + |script|
            && raw[8..12] == count
            && raw[12..k] == ascii + [0]
            && raw[k..k + 4] == unicodeCount
            && raw[k + 4..at] == units
            && raw[at] == |script|
            && raw[at + 1..] == script
  {
    var q := unicodeCount + (units + ([|script| as byte] + script));
    DescEncodedHead(raw, header, count, ascii, q);
    DescEncodedTail(raw, 12 + |ascii| + 1, unicodeCount, units, script);
  }

  /** Reading back an encoded description gives its three parts. */
  lemma DescRoundTrip(header: seq<byte>, ascii: seq<byte>, unicode: seq<u16>, script: seq<byte>)
    requires |header| == 8 && |ascii| + 1 < 0x1_0000_0000 && |unicode| < 0x1_0000_0000 && |script| < 0x100
    requires forall i :: 0 <= i < |ascii| ==> ascii[i] != 0
    ensures DecodeDesc(EncodeDesc(header, ascii, unicode, script)) ==
              Success(Desc(DescTag(Chars(ascii), unicode, Chars(script))))
  {
    var raw := EncodeDesc(header, ascii, unicode, script);
    var n := |ascii| + 1;
    var k := 12 + n;
    DescLayout(raw, header, BytesOfU32(n), ascii, BytesOfU32(|unicode|), BytesOfU16s(unicode), script);
    assert U32(raw, 8) == n by { U32At(raw, 8, n); }
    assert CutAtNul(raw[12..12 + n]) == ascii by {
      assert ascii + [0] == ascii + [0] + [];
      CutAtNulOfText(ascii, []);
    }
    DescAsciiStep(raw, n);
    assert U32(raw, k) == |unicode| by { U32At(raw, k, |unicode|); }
    assert UnitsAt(raw, k + 4, |unicode|) == unicode by { UnitsAtOf(raw, k + 4, unicode); }
    DescTailRoundTrip(raw, k, Chars(ascii), unicode, script);
  }

  // ---------------------------------------------------------------- multiLocalizedUnicodeType

  /** Record i of the record table: language, country, then the string it points at. */
  function MlucRecordAt(raw: seq<byte>, i: nat): (r: Result<LocalizedString, Error>)
    requires 28 + 12 * i <= |raw|
    ensures r.Success? <==> U32(raw, 24 + 12 * i) + U32(raw, 20 + 12 * i) <= |raw| && U32(raw, 20 + 12 * i) % 2 == 0
    ensures r.Failure? ==> r.error == MlucRecordOutOfBounds(i)
  {
    var base := 16 + 12 * i;
    var strLen := U32(raw, base + 4);
    var strOffset := U32(raw, base + 8);
    if strOffset + strLen > |raw| || strLen % 2 != 0 then Failure(MlucRecordOutOfBounds(i))
    else
      Success(LocalizedString(Chars(raw[base..base + 2]), Chars(raw[base + 2..base + 4]),
                              CodeUnits(raw[strOffset..strOffset + strLen])))
  }

  /** A record's string is its language bytes, country bytes and the code units its length and offset point at. */
  lemma MlucRecordLayout(raw: seq<byte>, i: nat)
    requires 28 + 12 * i <= |raw| && MlucRecordAt(raw, i).Success?
    ensures var len, off := U32(raw, 20 + 12 * i), U32(raw, 24 + 12 * i);
            var s := MlucRecordAt(raw, i).value;
            && s.language == Chars(raw[16 + 12 * i..18 + 12 * i])
            && s.country == Chars(raw[18 + 12 * i..20 + 12 * i])
            && s.value == CodeUnits(raw[off..off + len])
  {
  }

  /** The records of a table of `count` records, as the item of a fold. */
  function MlucRecord(raw: seq<byte>, count: nat): nat --> Result<LocalizedString, Error>
  {
    (i: nat) requires i < count && 28 + 12 * i <= |raw| => MlucRecordAt(raw, i)
  }

  /** Item i of the fold is record i. */
  lemma MlucItem(raw: seq<byte>, count: nat, i: nat)
    requires 16 + 12 * count <= |raw| && i < count
    ensures MlucRecord(raw, count)(i) == MlucRecordAt(raw, i)
  {
  }

  /**
   * mlucDecoder: the record size must be 12 and the record table must fit;
   * then every record in order, failing at the first whose string does not
   * fit or has an odd length.
   */
  function DecodeMluc(raw: seq<byte>): (r: Result<TagValue, Error>)
    ensures |raw| < 16 ==> r == Failure(TooShort("mluc"))
    ensures |raw| >= 16 && U32(raw, 12) != 12 ==> r == Failure(MlucRecordSize(U32(raw, 12)))
    ensures |raw| >= 16 && U32(raw, 12) == 12 && |raw| < 16 + 12 * U32(raw, 8) ==> r == Failure(MlucTruncatedRecords)
    ensures r.Success? ==> r.value.Mluc? && 16 + 12 * U32(raw, 8) <= |raw|
  {
    if |raw| < 16 then Failure(TooShort("mluc"))
    else
      var count := U32(raw, 8);
      var recordSize := U32(raw, 12);
      if recordSize != 12 then Failure(MlucRecordSize(recordSize))
      else if |raw| < 16 + 12 * count then Failure(MlucTruncatedRecords)
      else
        var strings :- FoldUpTo(MlucRecord(raw, count), count);
        Success(Mluc(strings))
  }

  /** mlucDecoder with the source's record loop, appending one string per record. */
  method MlucDecoder(raw: seq<byte>) returns (r: Result<TagValue, Error>)
    ensures r == DecodeMluc(raw)
  {
    if |raw| < 16 {
      return Failure(TooShort("mluc"));
    }
    var count: nat := U32(raw, 8);
    var recordSize := U32(raw, 12);
    if recordSize != 12 {
      return Failure(MlucRecordSize(recordSize));
    }
    if |raw| < 16 + count * 12 {
      return Failure(MlucTruncatedRecords);
    }
    var strings := ReadMlucRecords(raw, count);
    if strings.Failure? {
      return Failure(strings.error);
    }
    r := Success(Mluc(strings.value));
  }

  /** The record loop of mlucDecoder: one string per record, stopping at the first bad record. */
  method ReadMlucRecords(raw: seq<byte>, count: nat) returns (r: Result<seq<LocalizedString>, Error>)
    requires 16 + 12 * count <= |raw|
    ensures r == FoldUpTo(MlucRecord(raw, count), count)
  {
    ghost var item := MlucRecord(raw, count);
    var strings: seq<LocalizedString> := [];
    var i := 0;
    while i < count
      invariant 0 <= i <= count
      invariant FoldUpTo(item, i) == Success(strings)
    {
      var record := ReadMlucRecord(raw, i);
      MlucItem(raw, count, i);
      if record.Failure? {
        FoldStop(item, i, count);
        return Failure(record.error);
      }
      FoldStep(item, i, strings);
      strings := strings + [record.value];
      i := i + 1;
    }
    r := Success(strings);
  }

  /** The body of the record loop: record i, or the error that ends the loop there. */
  method ReadMlucRecord(raw: seq<byte>, i: nat) returns (r: Result<LocalizedString, Error>)
    requires 28 + 12 * i <= |raw|
    ensures r == MlucRecordAt(raw, i)
  {
    var base := 16 + 12 * i;
    var langCode := Chars(raw[base..base + 2]);
    var countryCode := Chars(raw[base + 2..base + 4]);
    var strLen := U32(raw, base + 4);
    var strOffset := U32(raw, base + 8);
    if strOffset + strLen > |raw| || strLen % 2 != 0 {
      return Failure(MlucRecordOutOfBounds(i));
    }
    var decoded := DecodeUTF16BE(raw[strOffset..strOffset + strLen]);
    r := Success(LocalizedString(langCode, countryCode, decoded));
  }

  /**
   * A decoded table holds `count` strings, string i made from record i; and
   * decoding succeeds exactly when every record's string fits and has an even
   * length.
   */
  lemma MlucRecords(raw: seq<byte>)
    requires |raw| >= 16 && U32(raw, 12) == 12 && 16 + 12 * U32(raw, 8) <= |raw|
    ensures DecodeMluc(raw).Success? <==> forall i: nat :: i < U32(raw, 8) ==> MlucRecordAt(raw, i).Success?
    ensures DecodeMluc(raw).Success? ==>
              var strings := DecodeMluc(raw).value.strings;
              && |strings| == U32(raw, 8)
              && forall i: nat :: i < U32(raw, 8) ==> strings[i] == MlucRecordAt(raw, i).value
  {
    var count := U32(raw, 8);
    var item := MlucRecord(raw, count);
    FoldSuccess(item, count);
    assert forall i: nat :: i < count ==> item(i) == MlucRecordAt(raw, i);
  }

  /** The first record whose string does not fit, or has an odd length, is the one the error names. */
  lemma MlucFirstBadRecord(raw: seq<byte>, j: nat)
    requires |raw| >= 16 && U32(raw, 12) == 12 && 16 + 12 * U32(raw, 8) <= |raw|
    requires j < U32(raw, 8)
    requires forall i: nat :: i < j ==> U32(raw, 24 + 12 * i) + U32(raw, 20 + 12 * i) <= |raw| && U32(raw, 20 + 12 * i) % 2 == 0
    requires U32(raw, 24 + 12 * j) + U32(raw, 20 + 12 * j) > |raw| || U32(raw, 20 + 12 * j) % 2 != 0
    ensures DecodeMluc(raw) == Failure(MlucRecordOutOfBounds(j))
  {
    var count := U32(raw, 8);
    var item := MlucRecord(raw, count);
    forall i: nat | i < j
      ensures item(i).Success?
    {
    }
    FoldFailAt(item, count, j);
  }
}
