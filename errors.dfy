/**
 * The errors the reader returns.  Each variant stands for one error the source
 * constructs (its message text is not modelled, only which error it is and the
 * values it names); a wrapped error keeps its cause, as `%w` does.
 */
module Errors {

  /** Which of the two colour-space conversions an error belongs to. */
  datatype Direction = ToPcs | FromPcs

  /**
   * Places where the source indexes or slices without checking first, so that
   * the Go runtime panics.  The model returns these as errors so that every
   * input has an outcome.
   */
  datatype PanicSite =
    | TagBlockUnder4Bytes      // stringed(raw[0:4]) in parseTags
    | SignatureUnder12Bytes    // stringed(raw[8:12]) in sigDecoder
    | ClutGridPastEnd          // raw[10:10+inputChannels] in clutDecoder
    | CurvePointIndex          // c.Points[lo] / c.Points[hi] in CurveTag.Transform
    | MissingCurve             // m.InputCurves[i] / m.OutputCurves[i] past the slice
    | ClutValueIndex           // the unguarded m.CLUT[base+o] in MFT2Tag.Transform

  datatype Error =
    // reading the byte stream
    | ShortRead
    | SkipFailed
    // header
    | InvalidSignature(found: string)
    // tag table
    | TooManyTags(count: nat)
    // tag blocks
    | SkipToTag(signature: string, offset: nat, cause: Error)
    | OffsetBeforePosition(signature: string, offset: nat, position: int)
    | ReadTag(signature: string, offset: nat, cause: Error)
    | UnknownTag(signature: string)
    | UnknownTagAt(signature: string, offset: nat)
    | DecodeTag(signature: string, offset: nat, cause: Error)
    // decoders
    | TooShort(tagType: string)
    | DescAsciiLength
    | DescMissingUnicode
    | DescMissingScript
    | MlucRecordSize(size: nat)
    | MlucTruncatedRecords
    | MlucRecordOutOfBounds(index: nat)
    | XyzLength
    | CurveMissingGamma
    | CurveTruncated
    | ParaUnknownFunction(functionType: nat)
    | ParaTruncated
    | ClutOddBody
    | ClutBodyLength
    | Mft2InputCurve(channel: nat)
    | Mft2ClutTruncated
    | Mft2OutputCurve(channel: nat)
    | Mft1InputCurve(channel: nat)
    | Mft1ClutTruncated
    | Mft1OutputCurve(channel: nat)
    | ModularElementTooShort(index: nat)
    | UnknownEmbeddedTag(signature: string)
    | Sf32Unaligned
    // transforms
    | ChannelCount(expected: nat, got: nat)
    | CurveNoPoints
    | CurveUnknownType
    | ParaParameterCount
    | ClutMissingValues
    | ClutGridMismatch
    | ClutTooFewGridPoints(channel: nat)
    | ClutGridIndex(dim: nat)
    | ClutValueOutOfRange
    | Mft2InputCurveIndex(channel: nat)
    | Mft2ClutIndex
    | Mft2OutputCurveIndex(channel: nat)
    | Mft1InputCurveIndex(position: int)
    | Mft1GridIndex(dim: nat)
    | Mft1ClutIndex
    | Mft1OutputCurveIndex(position: int)
    | ModularElementDecode(name: string, cause: Error)
    | ModularElementTransform(name: string, cause: Error)
    | ModularNothingToApply
    // colour-space conversions
    | ConversionTagNotFound(direction: Direction)
    | ConversionTagDecode(direction: Direction, cause: Error)
    | ConversionNotImplemented(direction: Direction)
    // unchecked indexing in the source
    | Panic(site: PanicSite)
}
