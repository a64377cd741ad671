/** The tag table that follows the header: a count and twelve bytes per entry. */
module TagHeaders {
  import opened Wrappers
  import opened Bytes
  import opened Errors
  import opened Streams
  import opened Header

  /** The four bytes of a signature field. */
  type SignatureBytes = s: seq<byte> | |s| == 4 witness [0, 0, 0, 0]

  /**
   * One tag table entry.  The source stores the signature as the string that
   * stringed makes of the four signature bytes; the model keeps the bytes and
   * derives that string with Signature().
   */
  datatype TagHeader = TagHeader(signatureBytes: SignatureBytes, offset: u32, size: u32) {
    function Signature(): string {
      Stringed(signatureBytes)
    }
  }

  datatype TagHeaderTable = TagHeaderTable(entries: seq<TagHeader>)

  const MaxTagCount: nat := 1024

  /** The entry whose twelve bytes start at `at`: signature, offset, size. */
  function EntryAt(data: seq<byte>, at: nat): TagHeader
    requires at + 12 <= |data|
  {
    TagHeader(data[at..at + 4], U32(data, at + 4), U32(data, at + 8))
  }

  /** An entry read from a slice of the data is the entry read at the same place in the data. */
  lemma EntryAtShift(data: seq<byte>, off: nat, sub: seq<byte>, at: nat)
    requires off + |sub| <= |data| && sub == data[off..off + |sub|]
    requires at + 12 <= |sub|
    ensures EntryAt(sub, at) == EntryAt(data, off + at)
  {
    SliceOfSlice(data, off, sub, at, 4);
    U32OfSlice(data, off, sub, at + 4);
    U32OfSlice(data, off, sub, at + 8);
  }

  /** The `count` entries of an entry block, in table order. */
  function EntriesOf(block: seq<byte>, count: nat): (r: seq<TagHeader>)
    requires 12 * count <= |block|
    ensures |r| == count
  {
    seq(count, i requires 0 <= i < count => EntryAt(block, 12 * i))
  }

  /** The entries of a block cut from the data are the entries read in place. */
  lemma EntriesOfShift(data: seq<byte>, off: nat, block: seq<byte>, n: nat)
    requires off + 12 * n <= |data| && block == data[off..off + 12 * n]
    ensures forall i :: 0 <= i < n ==> EntriesOf(block, n)[i] == EntryAt(data, off + 12 * i)
  {
    forall i | 0 <= i < n
      ensures EntriesOf(block, n)[i] == EntryAt(data, off + 12 * i)
    {
      EntryAtShift(data, off, block, 12 * i);
    }
  }

  /**
   * The outcome of parseTagHeaders on a stream.  A short count, a count over
   * 1024 and a short entry block are the only errors.
   */
  function TagTable(s: Stream): (r: Result<(TagHeaderTable, Stream), Error>)
    ensures s.pos + 4 > |s.data| ==> r == Failure(ShortRead)
    ensures s.pos + 4 <= |s.data| && U32(s.data, s.pos) > MaxTagCount ==>
              r == Failure(TooManyTags(U32(s.data, s.pos)))
    ensures r.Success? <==>
              s.pos + 4 <= |s.data| && U32(s.data, s.pos) <= MaxTagCount &&
              s.pos + 4 + 12 * U32(s.data, s.pos) <= |s.data|
    ensures r.Failure? ==> r.error == ShortRead || r.error.TooManyTags?
  {
    if s.pos + 4 > |s.data| then Failure(ShortRead)
    else
      var count := U32(s.data, s.pos);
      if count > MaxTagCount then Failure(TooManyTags(count))
      else if s.pos + 4 + 12 * count > |s.data| then Failure(ShortRead)
      else
        var block := s.data[s.pos + 4..s.pos + 4 + 12 * count];
        Success((TagHeaderTable(EntriesOf(block, count)), Stream(s.data, s.pos + 4 + 12 * count)))
  }

  /**
   * A parsed table has one entry per twelve-byte record, in order, and the
   * stream is left just after the last record.
   */
  lemma TagTableEntries(s: Stream)
    requires TagTable(s).Success?
    ensures var n := U32(s.data, s.pos);
            var es := TagTable(s).value.0.entries;
            && |es| == n
            && (forall i :: 0 <= i < n ==> es[i] == EntryAt(s.data, s.pos + 4 + 12 * i))
            && TagTable(s).value.1 == Stream(s.data, s.pos + 4 + 12 * n)
  {
    var n := U32(s.data, s.pos);
    var block := s.data[s.pos + 4..s.pos + 4 + 12 * n];
    assert TagTable(s).value.0.entries == EntriesOf(block, n);
    EntriesOfShift(s.data, s.pos + 4, block, n);
  }

  /** parseTagHeaders, with the source's entry loop over a fixed-size slice. */
  method ParseTagHeaders(s: Stream) returns (r: Result<(TagHeaderTable, Stream), Error>)
    ensures r == TagTable(s)
  {
    var read := Read(s, 4);
    if read.Failure? {
      return Failure(read.error);
    }
    var (countBuf, s1) := read.value;
    var count := U32(countBuf, 0);
    if count > MaxTagCount {
      return Failure(TooManyTags(count));
    }
    var block := Read(s1, count * 12);
    if block.Failure? {
      return Failure(block.error);
    }
    var (tagBytes, s2) := block.value;
    var table := ReadEntries(tagBytes, count);
    r := Success((TagHeaderTable(table), s2));
    assert tagBytes == s.data[s.pos + 4..s.pos + 4 + 12 * count];
  }

  /** The entry loop of parseTagHeaders: one entry per twelve bytes, into a table of `count` slots. */
  method ReadEntries(tagBytes: seq<byte>, count: nat) returns (table: seq<TagHeader>)
    requires 12 * count <= |tagBytes|
    ensures table == EntriesOf(tagBytes, count)
  {
    var entries := new TagHeader[count](_ => TagHeader([0, 0, 0, 0], 0, 0));
    var i := 0;
    while i < count
      invariant 0 <= i <= count
      invariant forall k :: 0 <= k < i ==> entries[k] == EntryAt(tagBytes, 12 * k)
    {
      entries[i] := EntryAt(tagBytes, i * 12);
      i := i + 1;
    }
    table := entries[..];
  }

  // ---------------------------------------------------------------- encoding

  /** The twelve bytes of one entry. */
  function EncodeEntry(h: TagHeader): (r: seq<byte>)
    ensures |r| == 12
  {
    h.signatureBytes + BytesOfU32(h.offset) + BytesOfU32(h.size)
  }

  /** The entry block for a list of entries. */
  function EncodeEntries(hs: seq<TagHeader>): (r: seq<byte>)
    ensures |r| == 12 * |hs|
  {
    if hs == [] then [] else EncodeEntries(hs[..|hs| - 1]) + EncodeEntry(hs[|hs| - 1])
  }

  lemma {:induction false} EncodeEntriesAt(hs: seq<TagHeader>, i: nat)
    requires i < |hs|
    ensures EncodeEntries(hs)[12 * i..12 * i + 12] == EncodeEntry(hs[i])
  {
    var n := |hs|;
    var prev := EncodeEntries(hs[..n - 1]);
    assert EncodeEntries(hs) == prev + EncodeEntry(hs[n - 1]);
    if i < n - 1 {
      EncodeEntriesAt(hs[..n - 1], i);
      assert hs[..n - 1][i] == hs[i];
    }
  }

  lemma EntryOfEncoded(h: TagHeader)
    ensures EntryAt(EncodeEntry(h), 0) == h
  {
    var e := EncodeEntry(h);
    assert e[0..4] == h.signatureBytes;
    U32OfBytes(h.offset);
    U32OfBytes(h.size);
    U32OfSlice(e, 4, BytesOfU32(h.offset), 0);
    U32OfSlice(e, 8, BytesOfU32(h.size), 0);
  }

  lemma {:induction false} EncodedEntry(hs: seq<TagHeader>, i: nat)
    requires i < |hs|
    ensures EntryAt(EncodeEntries(hs), 12 * i) == hs[i]
  {
    var block := EncodeEntries(hs);
    var e := EncodeEntry(hs[i]);
    assert block[12 * i..12 * i + 12] == e by {
      EncodeEntriesAt(hs, i);
    }
    assert EntryAt(e, 0) == EntryAt(block, 12 * i) by {
      EntryAtShift(block, 12 * i, e, 0);
    }
    assert EntryAt(e, 0) == hs[i] by {
      EntryOfEncoded(hs[i]);
    }
  }

  /** Writing a table and reading it back gives the same entries and consumes the whole table. */
  lemma {:induction false} TableRoundTrip(hs: seq<TagHeader>)
    requires |hs| <= MaxTagCount
    ensures var data := BytesOfU32(|hs|) + EncodeEntries(hs);
            TagTable(Stream(data, 0)) == Success((TagHeaderTable(hs), Stream(data, |data|)))
  {
    var block := EncodeEntries(hs);
    var data := BytesOfU32(|hs|) + block;
    assert U32(data, 0) == |hs| by {
      U32OfBytes(|hs|);
      U32OfSlice(data, 0, BytesOfU32(|hs|), 0);
    }
    assert data[4..4 + 12 * |hs|] == block;
    var es := EntriesOf(block, |hs|);
    assert TagTable(Stream(data, 0)) == Success((TagHeaderTable(es), Stream(data, |data|)));
    assert es == hs by {
      forall i | 0 <= i < |hs|
        ensures es[i] == hs[i]
      {
        EncodedEntry(hs, i);
      }
    }
  }
}
