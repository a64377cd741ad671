/**
 * The default decoder registry and the modular (mAB / mBA) decoder.  They are
 * one module because they call each other: the registry holds the modular
 * decoder, and the modular decoder decodes its embedded elements through the
 * registry.
 *
 * The registry keys are the four-character type signatures with trailing
 * spaces trimmed, the form `stringed` produces for tag blocks.
 */
module Decoders {
  import opened Wrappers
  import opened Bytes
  import opened Errors
  import opened TagValues
  import opened Header
  import opened TextTags
  import opened XyzTags
  import opened CurveTags
  import opened MatrixTags
  import opened ClutTags
  import opened MftTags
  import opened MeasurementTags
  import opened ViewTags
  import opened Sf32Tags
  import opened MiscTags
  import opened ModularTags

  /** The type signatures defaultDecoders has an entry for. */
  const RegisteredTypes: set<string> := {
    "clut", "curv", "desc", "dict", "gbd", "mtx", "mAB", "mBA", "meas", "mft1", "mft2",
    "mluc", "para", "pseq", "psid", "sf32", "sig", "text", "view", "XYZ", "MSBN", "ZXML"
  }

  /** The registry entry for a registered type, applied to a block. */
  function DecodeAs(sig: string, raw: seq<byte>): (r: Result<TagValue, Error>)
    requires sig in RegisteredTypes
    decreases |raw|, 2, 0
  {
    if sig == "clut" then DecodeClut(raw)
    else if sig == "curv" then DecodeCurve(raw)
    else if sig == "desc" then DecodeDesc(raw)
    else if sig == "dict" then DictDecoder(raw)
    else if sig == "gbd" then GbdDecoder(raw)
    else if sig == "mtx" then DecodeMtx(raw)
    else if sig == "mAB" || sig == "mBA" then DecodeModular(raw)
    else if sig == "meas" then DecodeMeasurement(raw)
    else if sig == "mft1" then DecodeMft1(raw)
    else if sig == "mft2" then DecodeMft2(raw)
    else if sig == "mluc" then DecodeMluc(raw)
    else if sig == "para" then DecodeParametricCurve(raw)
    else if sig == "pseq" then PseqDecoder(raw)
    else if sig == "psid" then PsidDecoder(raw)
    else if sig == "sf32" then DecodeSf32(raw)
    else if sig == "sig" then DecodeSig(raw)
    else if sig == "text" then DecodeText(raw)
    else if sig == "view" then DecodeView(raw)
    else if sig == "XYZ" then DecodeXyz(raw)
    else if sig == "MSBN" then MsbnDecoder(raw)
    else ZxmlDecoder(raw)
  }

  /** defaultDecoders[sig]: the decoder of a registered type, none for any other. */
  function DefaultDecoder(sig: string): (d: Option<Decoder>)
    ensures d.Some? <==> sig in RegisteredTypes
    ensures d.Some? ==> forall raw :: d.value(raw) == DecodeAs(sig, raw)
  {
    if sig in RegisteredTypes then Some(raw => DecodeAs(sig, raw)) else None
  }

  /**
   * modularDecoder: a block under twelve bytes is refused; otherwise the first
   * element span under eight bytes fails the whole tag, and each span is
   * decoded as an embedded tag.  The channel counts are the u16 fields at 8
   * and 10 cut to a byte.
   */
  function DecodeModular(raw: seq<byte>): (r: Result<TagValue, Error>)
    decreases |raw|, 1, 1
    ensures |raw| < ModularHeaderSize ==> r == Failure(TooShort("modular"))
    ensures |raw| >= ModularHeaderSize && ElementSpans(raw, ElementStarts(raw), |ElementStarts(raw)|).Failure? ==>
              r == Failure(ElementSpans(raw, ElementStarts(raw), |ElementStarts(raw)|).error)
    ensures r.Success? ==>
              |raw| >= ModularHeaderSize && r.value.Modular? &&
              r.value.modular.signature == Stringed(raw[..4]) &&
              r.value.modular.inputChannels as int == U16(raw, 8) % 0x100 &&
              r.value.modular.outputChannels as int == U16(raw, 10) % 0x100 &&
              |r.value.modular.elements| == |ElementStarts(raw)|
  {
    if |raw| < ModularHeaderSize then Failure(TooShort("modular"))
    else
      var elements :- ModularElements(raw, ElementStarts(raw));
      Success(Modular(ModularTag(Stringed(raw[..4]), (U16(raw, 8) % 0x100) as byte,
                                 (U16(raw, 10) % 0x100) as byte, elements)))
  }

  /** The elements of a modular block split at the given starts: its spans, each decoded as an embedded tag. */
  function ModularElements(raw: seq<byte>, starts: seq<nat>): (r: Result<seq<Element>, Error>)
    requires StartsIn(raw, starts)
    decreases |raw|, 1, 0
    ensures r.Failure? <==> ElementSpans(raw, starts, |starts|).Failure?
    ensures r.Failure? ==> r.error == ElementSpans(raw, starts, |starts|).error
    ensures r.Success? ==> |r.value| == |starts|
  {
    var spans :- ElementSpans(raw, starts, |starts|);
    ElementSpansOutcome(raw, starts, |starts|);
    Success(EmbedAll(spans, |raw|))
  }

  /** Each span decoded as an embedded tag, in order. */
  function EmbedAll(spans: seq<seq<byte>>, bound: nat): (es: seq<Element>)
    requires forall i :: 0 <= i < |spans| ==> 4 <= |spans[i]| < bound
    decreases bound, 0, |spans|
    ensures |es| == |spans|
    ensures forall i :: 0 <= i < |spans| ==> es[i] == EmbeddedTag(spans[i])
  {
    if spans == [] then []
    else EmbedAll(spans[..|spans| - 1], bound) + [EmbeddedTag(spans[|spans| - 1])]
  }

  /**
   * decodeEmbeddedTag: the element is named by its first four bytes, as they
   * are, and decoded at once by the registry; a name the registry does not
   * hold is stored as an error on the element, not returned.
   */
  function EmbeddedTag(block: seq<byte>): (e: Element)
    requires |block| >= 4
    decreases |block|, 3, 0
    ensures e.name == Chars(block[..4]) && e.raw == block
    ensures e.name !in RegisteredTypes ==> e.result == Failure(UnknownEmbeddedTag(e.name))
  {
    var name := Chars(block[..4]);
    if name in RegisteredTypes then Element(name, block, DecodeAs(name, block))
    else Element(name, block, Failure(UnknownEmbeddedTag(name)))
  }

  // ---------------------------------------------------------------- registry facts

  /** Both modular signatures share the one decoder. */
  lemma ModularSignaturesShareDecoder(raw: seq<byte>)
    ensures DefaultDecoder("mAB").Some? && DefaultDecoder("mBA").Some?
    ensures DefaultDecoder("mAB").value(raw) == DefaultDecoder("mBA").value(raw) == DecodeModular(raw)
  {
  }

  /** Every registry key is a trimmed signature: it never ends in a space. */
  lemma RegistryShape()
    ensures forall sig :: sig in RegisteredTypes ==> |sig| > 0 && sig[|sig| - 1] != ' '
  {
  }

  /**
   * An element's name is its four bytes untrimmed, so a three-letter type
   * padded with a space (such as "mtx ") is not found among the trimmed
   * registry keys and is stored as unknown.
   */
  lemma PaddedEmbeddedNameIsUnknown(block: seq<byte>)
    requires |block| >= 4 && block[3] == 32
    ensures EmbeddedTag(block).result == Failure(UnknownEmbeddedTag(Chars(block[..4])))
  {
    var name := Chars(block[..4]);
    assert name[3] == ' ';
    RegistryShape();
    assert name !in RegisteredTypes;
  }

  // ---------------------------------------------------------------- modular decoder facts

  /**
   * The modular decoder succeeds exactly when the block has its header and
   * every element span has room for an element header; it then holds one
   * element per span, each the span decoded as an embedded tag.
   */
  lemma ModularDecodeOutcome(raw: seq<byte>)
    requires |raw| >= ModularHeaderSize
    ensures DecodeModular(raw).Success? <==>
              forall i :: 0 <= i < |ElementStarts(raw)| ==> |ElementBlock(raw, ElementStarts(raw), i)| >= 8
    ensures DecodeModular(raw).Success? ==>
              forall i :: 0 <= i < |ElementStarts(raw)| ==>
                DecodeModular(raw).value.modular.elements[i] == EmbeddedTag(ElementBlock(raw, ElementStarts(raw), i))
    ensures forall j :: 0 <= j < |ElementStarts(raw)| && |ElementBlock(raw, ElementStarts(raw), j)| < 8 &&
                        (forall i :: 0 <= i < j ==> |ElementBlock(raw, ElementStarts(raw), i)| >= 8) ==>
              DecodeModular(raw) == Failure(ModularElementTooShort(j))
  {
    ElementSpansOutcome(raw, ElementStarts(raw), |ElementStarts(raw)|);
    forall j | 0 <= j < |ElementStarts(raw)| && |ElementBlock(raw, ElementStarts(raw), j)| < 8 &&
               (forall i :: 0 <= i < j ==> |ElementBlock(raw, ElementStarts(raw), i)| >= 8)
      ensures DecodeModular(raw) == Failure(ModularElementTooShort(j))
    {
      FirstShortElement(raw, ElementStarts(raw), |ElementStarts(raw)|, j);
    }
  }

  /** A block of twelve header bytes and three more: its single element is too short. */
  lemma ElementTooShortExample()
    ensures DecodeModular([109, 65, 66, 32, 0, 0, 0, 0, 0, 1, 0, 1, 98, 97, 100]) ==
            Failure(ModularElementTooShort(0))
  {
    var raw: seq<byte> := [109, 65, 66, 32, 0, 0, 0, 0, 0, 1, 0, 1, 98, 97, 100];
    assert !HasOffsetTable(raw);
    assert ElementStarts(raw) == [12];
    assert |ElementBlock(raw, ElementStarts(raw), 0)| == 3;
    FirstShortElement(raw, ElementStarts(raw), 1, 0);
  }

  /**
   * Without an offset table the block holds one element, everything after
   * the twelve header bytes, as long as that is at least eight bytes.
   */
  lemma {:induction false} SingleElementWithoutTable(raw: seq<byte>)
    requires |raw| >= 20 && OffsetTable(raw) == []
    ensures DecodeModular(raw) ==
            Success(Modular(ModularTag(Stringed(raw[..4]), (U16(raw, 8) % 0x100) as byte,
                                       (U16(raw, 10) % 0x100) as byte, [EmbeddedTag(raw[12..])])))
  {
    var starts := ElementStarts(raw);
    assert |starts| == 1 && ElementBlock(raw, starts, 0) == raw[12..];
    ModularDecodeOutcome(raw);
    var m := DecodeModular(raw).value.modular;
    assert m.elements == [EmbeddedTag(raw[12..])];
  }

  /** A "curv" block with a count of one and no gamma value, embedded: the error stays on the element. */
  lemma CurvElementExample()
    ensures var block: seq<byte> := [99, 117, 114, 118, 0, 0, 0, 0, 0, 0, 0, 1];
            EmbeddedTag(block) == Element("curv", block, Failure(CurveMissingGamma))
  {
    var block: seq<byte> := [99, 117, 114, 118, 0, 0, 0, 0, 0, 0, 0, 1];
    assert Chars(block[..4]) == "curv";
    assert DecodeCurve(block) == Failure(CurveMissingGamma);
  }

  /**
   * modularDecoder with the source's loops: the offset table, then one
   * embedded tag per span.
   */
  method ModularDecoder(raw: seq<byte>) returns (r: Result<TagValue, Error>)
    ensures r == DecodeModular(raw)
  {
    if |raw| < ModularHeaderSize {
      return Failure(TooShort("modular"));
    }
    var inputCh := U16(raw, 8);
    var outputCh := U16(raw, 10);
    var offsets := ReadElementStarts(raw);
    var elements :- DecodeElements(raw, offsets);
    r := Success(Modular(ModularTag(Stringed(raw[..4]), (inputCh % 0x100) as byte,
                                    (outputCh % 0x100) as byte, elements)));
  }

  /**
   * The element loop of modularDecoder.  The source's check that a span ends
   * past the block cannot fire, since every offset kept is inside the block.
   */
  method DecodeElements(raw: seq<byte>, offsets: seq<nat>) returns (r: Result<seq<Element>, Error>)
    requires StartsIn(raw, offsets)
    ensures r == ModularElements(raw, offsets)
  {
    var elements: seq<Element> := [];
    ghost var spans: seq<seq<byte>> := [];
    var i := 0;
    while i < |offsets|
      invariant 0 <= i <= |offsets|
      invariant ElementSpans(raw, offsets, i) == Success(spans)
      invariant forall j :: 0 <= j < |spans| ==> 8 <= |spans[j]| < |raw|
      invariant elements == EmbedAll(spans, |raw|)
    {
      var elemEnd := |raw|;
      if i + 1 < |offsets| {
        elemEnd := offsets[i + 1];
      }
      var elemBlock := raw[offsets[i]..elemEnd];
      assert elemBlock == ElementBlock(raw, offsets, i);
      if |elemBlock| < 8 {
        ElementSpansOutcome(raw, offsets, i);
        FirstShortElement(raw, offsets, |offsets|, i);
        return Failure(ModularElementTooShort(i));
      }
      assert (spans + [elemBlock])[..|spans|] == spans;
      spans := spans + [elemBlock];
      elements := elements + [EmbeddedTag(elemBlock)];
      i := i + 1;
    }
    r := Success(elements);
  }
}
