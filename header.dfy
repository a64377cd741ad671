/** The 128-byte profile header: its fixed layout, the version bit fields and 4-character signatures. */
module Header {
  import opened Wrappers
  import opened Bytes
  import opened Errors
  import opened Streams
  import opened FixedFloat

  const HeaderSize: nat := 128

  /** The version word's three fields: bits 31-24, 23-20 and 19-16. */
  datatype Version = Version(major: nat, minor: nat, revision: nat)

  /** The six big-endian 16-bit creation date fields, as given to time.Date (in UTC). */
  datatype DateTime = DateTime(year: u16, month: u16, day: u16, hour: u16, minute: u16, second: u16)

  datatype Header = Header(
    profileSize: u32,
    cmmType: string,
    versionRaw: u32,
    version: Version,
    deviceClass: string,
    colorSpace: string,
    pcs: string,
    created: DateTime,
    signature: string,
    platform: string,
    flags: u32,
    manufacturer: string,
    model: string,
    attributes: seq<byte>,
    renderingIntent: u32,
    illuminant: seq<real>,
    creator: string,
    profileId: seq<byte>)

  /** Go's zero Header{}, returned together with an error. */
  const EmptyHeader: Header :=
    Header(0, "", 0, Version(0, 0, 0), "", "", "", DateTime(0, 0, 0, 0, 0, 0), "", "", 0, "", "",
           Repeat(0, 8), 0, Repeat(0.0, 3), "", Repeat(0, 16))

  // ---------------------------------------------------------------- version

  /** versionFromRaw: the fields are exactly the bit fields of the word's upper half. */
  function VersionFromRaw(v: u32): (r: Version)
    ensures r.major < 0x100 && r.minor < 0x10 && r.revision < 0x10
    ensures v == r.major * 0x100_0000 + r.minor * 0x10_0000 + r.revision * 0x1_0000 + v % 0x1_0000
  {
    var r := Version((v / 0x100_0000) % 0x100, (v / 0x10_0000) % 0x10, (v / 0x1_0000) % 0x10);
    VersionSplit(v);
    r
  }

  lemma VersionSplit(v: u32)
    ensures v == ((v / 0x100_0000) % 0x100) * 0x100_0000 + ((v / 0x10_0000) % 0x10) * 0x10_0000
                 + ((v / 0x1_0000) % 0x10) * 0x1_0000 + v % 0x1_0000
  {
    var q := v / 0x1_0000;
    assert v == q * 0x1_0000 + v % 0x1_0000;
    var q2 := q / 0x10;
    assert q == q2 * 0x10 + q % 0x10;
    assert q2 == v / 0x10_0000;
    var q3 := q2 / 0x10;
    assert q2 == q3 * 0x10 + q2 % 0x10;
    assert q3 == v / 0x100_0000;
    assert q3 < 0x100;
  }

  /** Any fields in range come back out of the word they make up. */
  lemma VersionRoundTrip(major: nat, minor: nat, revision: nat, low: nat)
    requires major < 0x100 && minor < 0x10 && revision < 0x10 && low < 0x1_0000
    ensures VersionFromRaw(major * 0x100_0000 + minor * 0x10_0000 + revision * 0x1_0000 + low)
         == Version(major, minor, revision)
  {
    var v := major * 0x100_0000 + minor * 0x10_0000 + revision * 0x1_0000 + low;
    var q := major * 0x100 + minor * 0x10 + revision;
    assert v == q * 0x1_0000 + low;
    assert v / 0x1_0000 == q;
    assert q % 0x10 == revision && q / 0x10 == major * 0x10 + minor;
    assert v / 0x10_0000 == q / 0x10;
    assert (major * 0x10 + minor) % 0x10 == minor && (major * 0x10 + minor) / 0x10 == major;
    assert v / 0x100_0000 == (v / 0x10_0000) / 0x10;
  }

  lemma VersionExample()
    ensures VersionFromRaw(0x0240_0000) == Version(2, 4, 0)
  {
    VersionRoundTrip(2, 4, 0, 0);
  }

  // ---------------------------------------------------------------- signatures

  predicate IsPad(b: byte) {
    b == 0 || b == 32
  }

  predicate Printable(b: byte) {
    32 <= b <= 126
  }

  /** strings.TrimRight(s, "\x00 "): drops trailing NUL and space bytes. */
  function TrimRight(s: seq<byte>): seq<byte>
  {
    if |s| > 0 && IsPad(s[|s| - 1]) then TrimRight(s[..|s| - 1]) else s
  }

  /**
   * What TrimRight leaves: a prefix of the input, everything removed is NUL or
   * space, and what is left does not end in either.
   */
  lemma {:induction false} TrimRightMeaning(s: seq<byte>)
    ensures TrimRight(s) <= s
    ensures forall i :: |TrimRight(s)| <= i < |s| ==> IsPad(s[i])
    ensures |TrimRight(s)| > 0 ==> !IsPad(TrimRight(s)[|TrimRight(s)| - 1])
  {
    if |s| > 0 && IsPad(s[|s| - 1]) {
      TrimRightMeaning(s[..|s| - 1]);
    }
  }

  const HexDigits: string := "0123456789ABCDEF"

  /** The two upper-case hexadecimal digits of a byte, as "%02X" prints them. */
  function Hex2(b: byte): string {
    [HexDigits[b / 16], HexDigits[b % 16]]
  }

  function DigitValue(c: char): nat {
    if '0' <= c <= '9' then c as int - '0' as int
    else if 'A' <= c <= 'F' then c as int - 'A' as int + 10
    else 0
  }

  /** Reads a string of hexadecimal digit pairs back into bytes. */
  function Unhex(h: string): seq<byte>
    decreases |h|
  {
    if |h| < 2 then []
    else [(DigitValue(h[0]) * 16 + DigitValue(h[1])) % 0x100] + Unhex(h[2..])
  }

  lemma UnhexPair(b: byte)
    ensures DigitValue(Hex2(b)[0]) == b / 16 && DigitValue(Hex2(b)[1]) == b % 16
  {
  }

  lemma UnhexFirst(b: byte, rest: string)
    ensures Unhex(Hex2(b) + rest) == [b] + Unhex(rest)
  {
    UnhexPair(b);
    var h := Hex2(b) + rest;
    assert h[2..] == rest;
  }

  predicate AllPrintable(s: seq<byte>) {
    |s| == 0 || (Printable(s[0]) && AllPrintable(s[1..]))
  }

  lemma {:induction false} AllPrintableAt(s: seq<byte>, i: nat)
    requires AllPrintable(s) && i < |s|
    ensures Printable(s[i])
  {
    if i > 0 {
      AllPrintableAt(s[1..], i - 1);
    }
  }

  const Zeros4: seq<byte> := [0, 0, 0, 0]

  /** "0x" and the four bytes in upper-case hexadecimal ("0x%02X%02X%02X%02X"). */
  function HexForm(data: seq<byte>): (r: string)
    requires |data| == 4
    ensures |r| == 10 && r[..2] == "0x"
  {
    "0x" + (Hex2(data[0]) + (Hex2(data[1]) + (Hex2(data[2]) + Hex2(data[3]))))
  }

  /** The hexadecimal form loses nothing: its digits read back to the four bytes. */
  lemma UnhexHexForm(data: seq<byte>)
    requires |data| == 4
    ensures Unhex(HexForm(data)[2..]) == data
  {
    var h := Hex2(data[0]) + (Hex2(data[1]) + (Hex2(data[2]) + Hex2(data[3])));
    assert HexForm(data)[2..] == h;
    UnhexFirst(data[3], "");
    assert Hex2(data[3]) + "" == Hex2(data[3]);
    UnhexFirst(data[2], Hex2(data[3]));
    UnhexFirst(data[1], Hex2(data[2]) + Hex2(data[3]));
    UnhexFirst(data[0], Hex2(data[1]) + (Hex2(data[2]) + Hex2(data[3])));
  }

  /**
   * stringed: "" for four NUL bytes; otherwise the text with trailing NULs and
   * spaces removed, unless a character left is outside 32..126, in which case
   * the hexadecimal form of all four bytes.
   */
  function Stringed(data: seq<byte>): string
    requires |data| == 4
  {
    if data == Zeros4 then ""
    else
      var s := TrimRight(data);
      if AllPrintable(s) then Chars(s) else HexForm(data)
  }

  /**
   * The three outcomes of stringed: empty for NULs, the trimmed printable text,
   * or a ten-character hexadecimal form that reads back to the four bytes.
   */
  lemma StringedCases(data: seq<byte>)
    requires |data| == 4
    ensures data == Zeros4 ==> Stringed(data) == ""
    ensures data != Zeros4 && AllPrintable(TrimRight(data)) ==> Stringed(data) == Chars(TrimRight(data))
    ensures data != Zeros4 && !AllPrintable(TrimRight(data)) ==>
              var r := Stringed(data);
              |r| == 10 && r[..2] == "0x" && Unhex(r[2..]) == data
  {
    UnhexHexForm(data);
  }

  /**
   * A printable name not ending in a space, padded to four bytes with NULs or
   * spaces, reads back as itself.
   */
  lemma StringedPadded(name: seq<byte>, pad: seq<byte>)
    requires 0 < |name| && |name| + |pad| == 4
    requires AllPrintable(name) && !IsPad(name[|name| - 1])
    requires forall i :: 0 <= i < |pad| ==> IsPad(pad[i])
    ensures Stringed(name + pad) == Chars(name)
  {
    var d := name + pad;
    var t := TrimRight(d);
    TrimRightMeaning(d);
    var k := |name| - 1;
    assert d[k] == name[k];
    assert k < |t|;
    assert t == name;
    assert d != Zeros4 by { assert d[k] != 0; }
  }

  /** The header check: the signature reads "acsp" exactly when the bytes are 'a' 'c' 's' 'p'. */
  lemma StringedIsAcsp(data: seq<byte>)
    requires |data| == 4
    ensures Stringed(data) == "acsp" <==> data == [97, 99, 115, 112]
  {
    if data == [97, 99, 115, 112] {
      StringedPadded([97, 99, 115, 112], []);
      assert [97, 99, 115, 112] + [] == data;
    }
    if Stringed(data) == "acsp" {
      StringedCases(data);
      TrimRightMeaning(data);
      var t := TrimRight(data);
      assert data != Zeros4;
      assert AllPrintable(t);
      assert |Chars(t)| == 4;
      assert t == data;
      assert Chars(t)[0] == 'a' && Chars(t)[1] == 'c' && Chars(t)[2] == 's' && Chars(t)[3] == 'p';
    }
  }

  lemma StringedTrimExamples()
    ensures Stringed([97, 32, 0, 0]) == "a"
    ensures Stringed([100, 101, 115, 99]) == "desc"
    ensures Stringed([88, 89, 90, 0]) == "XYZ"
  {
    StringedPadded([97], [32, 0, 0]);
    assert [97] + [32, 0, 0] == [97, 32, 0, 0];
    StringedPadded([100, 101, 115, 99], []);
    assert [100, 101, 115, 99] + [] == [100, 101, 115, 99];
    StringedPadded([88, 89, 90], [0]);
    assert [88, 89, 90] + [0] == [88, 89, 90, 0];
  }

  lemma StringedHexExample()
    ensures Stringed([97, 255, 0, 0]) == "0x61FF0000"
  {
    var d: seq<byte> := [97, 255, 0, 0];
    assert d[..3] == [97, 255, 0] && d[..3][..2] == [97, 255];
    assert TrimRight(d) == [97, 255];
    assert !Printable(TrimRight(d)[1]);
    assert Hex2(97) == "61" && Hex2(255) == "FF" && Hex2(0) == "00";
  }

  // ---------------------------------------------------------------- header

  /** The fields of a 128-byte header block, after the signature check. */
  function HeaderOf(buf: seq<byte>): (r: Result<Header, Error>)
    requires |buf| == HeaderSize
    ensures r.Success? <==> buf[36..40] == [97, 99, 115, 112]
    ensures r.Failure? ==> r.error == InvalidSignature(Stringed(buf[36..40]))
    ensures r.Success? ==> var h := r.value;
      && h.signature == "acsp"
      && h.profileSize == U32(buf, 0) && h.versionRaw == U32(buf, 8)
      && h.version == VersionFromRaw(U32(buf, 8))
      && h.cmmType == Stringed(buf[4..8]) && h.deviceClass == Stringed(buf[12..16])
      && h.colorSpace == Stringed(buf[16..20]) && h.pcs == Stringed(buf[20..24])
      && h.created == DateTime(U16(buf, 24), U16(buf, 26), U16(buf, 28), U16(buf, 30), U16(buf, 32), U16(buf, 34))
      && h.platform == Stringed(buf[40..44]) && h.flags == U32(buf, 44)
      && h.manufacturer == Stringed(buf[48..52]) && h.model == Stringed(buf[52..56])
      && h.attributes == buf[56..64] && h.renderingIntent == U32(buf, 64)
      && h.illuminant == [ReadS15Fixed16BE(buf[68..72]), ReadS15Fixed16BE(buf[72..76]), ReadS15Fixed16BE(buf[76..80])]
      && h.creator == Stringed(buf[80..84]) && h.profileId == buf[84..100]
  {
    var signature := Stringed(buf[36..40]);
    StringedIsAcsp(buf[36..40]);
    if signature != "acsp" then Failure(InvalidSignature(signature))
    else
      var versionRaw := U32(buf, 8);
      Success(Header(
        U32(buf, 0), Stringed(buf[4..8]), versionRaw, VersionFromRaw(versionRaw),
        Stringed(buf[12..16]), Stringed(buf[16..20]), Stringed(buf[20..24]),
        DateTime(U16(buf, 24), U16(buf, 26), U16(buf, 28), U16(buf, 30), U16(buf, 32), U16(buf, 34)),
        signature, Stringed(buf[40..44]), U32(buf, 44), Stringed(buf[48..52]), Stringed(buf[52..56]),
        buf[56..64], U32(buf, 64),
        [ReadS15Fixed16BE(buf[68..72]), ReadS15Fixed16BE(buf[72..76]), ReadS15Fixed16BE(buf[76..80])],
        Stringed(buf[80..84]), buf[84..100]))
  }

  /**
   * parseHeader: reads exactly 128 bytes; fails on a short stream and on a
   * missing "acsp" at bytes 36..40.
   */
  function ParseHeader(s: Stream): (r: Result<(Header, Stream), Error>)
    ensures s.pos + HeaderSize > |s.data| ==> r == Failure(ShortRead)
    ensures r.Success? <==> s.pos + HeaderSize <= |s.data| && s.data[s.pos + 36..s.pos + 40] == [97, 99, 115, 112]
    ensures r.Success? ==>
              r.value.1 == Stream(s.data, s.pos + HeaderSize) &&
              Success(r.value.0) == HeaderOf(s.data[s.pos..s.pos + HeaderSize])
  {
    var (buf, rest) :- Read(s, HeaderSize);
    SliceOfSlice(s.data, s.pos, buf, 36, 4);
    var h :- HeaderOf(buf);
    Success((h, rest))
  }
}
