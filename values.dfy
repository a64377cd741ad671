/**
 * The values the tag decoders produce.  Go decoders return `any`; here every
 * decoder returns one of the variants of TagValue, and Nil stands for Go's nil.
 */
module TagValues {
  import opened Wrappers
  import opened Bytes
  import opened Errors

  /** The v2 textDescriptionType.  The UTF-16 part is kept as its big-endian code units. */
  datatype DescTag = DescTag(ascii: string, unicode: seq<u16>, script: string)

  /** One multiLocalizedUnicodeType record: language, country and the string's code units. */
  datatype LocalizedString = LocalizedString(language: string, country: string, value: seq<u16>)

  datatype XYZNumber = XYZNumber(x: real, y: real, z: real)

  /** Curve types 0, 1 and 2; any other number is an unknown type to Transform. */
  const CurveIdentity: nat := 0
  const CurveGamma: nat := 1
  const CurvePoints: nat := 2

  datatype CurveTag = CurveTag(curveType: nat, gamma: real, points: seq<u16>)

  datatype ParametricCurveTag = ParametricCurveTag(functionType: u16, parameters: seq<real>)

  type Row = s: seq<real> | |s| == 3 witness [0.0, 0.0, 0.0]
  const ZeroRow: Row := [0.0, 0.0, 0.0]
  type Matrix3 = m: seq<Row> | |m| == 3 witness [ZeroRow, ZeroRow, ZeroRow]

  /** A 3x3 matrix and, when the tag carries one, an offset vector. */
  datatype MatrixTag = MatrixTag(matrix: Matrix3, offset: Option<Row>)

  datatype MeasurementTag =
    MeasurementTag(observer: u32, backing: XYZNumber, geometry: u32, flare: real, illuminant: u32)

  datatype ViewingConditionsTag =
    ViewingConditionsTag(illuminant: XYZNumber, surround: XYZNumber, illuminantType: u32)

  /**
   * A colour lookup table.  `expectedValues` is the source's unexported cache
   * of the table size; 0 means not yet computed.
   */
  datatype ClutTag = ClutTag(
    gridPoints: seq<byte>,
    inputChannels: byte,
    outputChannels: byte,
    values: seq<real>,
    expectedValues: int)

  /** lut16Type: 16-bit curves and table entries. */
  datatype Mft2Tag = Mft2Tag(
    inputChannels: byte,
    outputChannels: byte,
    gridPoints: byte,
    matrix: seq<real>,
    inputCurves: seq<seq<u16>>,
    clut: seq<real>,
    outputCurves: seq<seq<u16>>)

  /** lut8Type: 256-entry 8-bit curves and 8-bit table entries. */
  datatype Mft1Tag = Mft1Tag(
    inputChannels: byte,
    outputChannels: byte,
    gridPoints: byte,
    matrix: seq<real>,
    inputCurves: seq<seq<byte>>,
    clut: seq<real>,
    outputCurves: seq<seq<byte>>)

  /**
   * One embedded element of a modular tag.  It is decoded when the modular tag
   * is, so it holds its outcome rather than a decoder.
   */
  datatype Element = Element(name: string, raw: seq<byte>, result: Result<TagValue, Error>)

  datatype ModularTag = ModularTag(signature: string, inputChannels: byte, outputChannels: byte, elements: seq<Element>)

  datatype TagValue =
    | Nil
    | Text(text: string)
    | Signature(signature: string)
    | Desc(desc: DescTag)
    | Mluc(strings: seq<LocalizedString>)
    | XYZList(numbers: seq<XYZNumber>)
    | Curve(curve: CurveTag)
    | ParaCurve(para: ParametricCurveTag)
    | Matrix(mtx: MatrixTag)
    | Measurement(meas: MeasurementTag)
    | View(view: ViewingConditionsTag)
    | Sf32(bits: seq<u32>)
    | Clut(clut: ClutTag)
    | Mft1(mft1: Mft1Tag)
    | Mft2(mft2: Mft2Tag)
    | Modular(modular: ModularTag)
    | Opaque(bytes: seq<byte>)

  /** A tag decoder: the tag's raw block in, a value or an error out. */
  type Decoder = seq<byte> -> Result<TagValue, Error>

  /**
   * math.Pow, which the model does not define: every transform that raises to a
   * power takes it as a parameter.
   */
  type PowFn = (real, real) -> real
}
