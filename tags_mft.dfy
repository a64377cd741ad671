/**
 * The multi-function tables lut16Type ("mft2") and lut8Type ("mft1") of
 * ICC.1:2010, clauses 10.10 and 10.9.  Both start with the input, output and
 * grid counts at bytes 8, 9 and 10 and nine s15Fixed16 matrix entries from
 * byte 12; then come the input curves, the colour lookup table of
 * grid^inputs nodes with one entry per output channel, and the output curves.
 * lut16 gives its input and output curve lengths as 16-bit values at bytes
 * 48 and 50 and stores 16-bit entries from byte 52; lut8 has 256-entry 8-bit
 * curves and 8-bit table entries from byte 48.
 */
module MftTags {
  import opened Wrappers
  import opened Bytes
  import opened Errors
  import opened FixedFloat
  import opened RealMath
  import opened Interp
  import opened TagValues
  import opened Folds
  import opened CurveTags
  import opened ClutTags

  // ---------------------------------------------------------------- sizes

  /** b^e over the integers: the table size grid^inputs, which the source computes with math.Pow. */
  function IntPow(b: nat, e: nat): nat {
    if e == 0 then 1 else b * IntPow(b, e - 1)
  }

  /** A grid of n dimensions with g points each has g^n nodes. */
  lemma {:induction false} StrideOfRepeat(g: nat, n: nat, d: nat)
    requires d <= n
    ensures Stride(Repeat(g as int, n), d) == IntPow(g, n - d)
    decreases n - d
  {
    if d < n {
      StrideOfRepeat(g, n, d + 1);
    }
  }

  /** count tables of width bytes take width·count bytes. */
  function Span(width: nat, count: nat): nat {
    width * count
  }

  lemma MulMono(w: nat, x: nat, y: nat)
    requires x <= y
    ensures w * x <= w * y
  {
    assert w * y - w * x == w * (y - x);
  }

  /** The i-th of count slots of width w ends inside the count slots. */
  lemma SlotFits(w: nat, i: nat, count: nat)
    requires i < count
    ensures w * i + w <= w * count
  {
    MulMono(w, i + 1, count);
    assert w * (i + 1) == w * i + w;
  }

  /** Multiplying by the same w keeps a strict order only if the factors had it. */
  lemma MulCancel(w: nat, x: nat, y: nat)
    requires w * x < w * y
    ensures x < y
  {
    if x >= y {
      MulMono(w, y, x);
    }
  }

  /** An a that lies in slot q of width w is divided by w with quotient q. */
  lemma DivSlot(a: nat, w: nat, q: nat)
    requires w * q <= a < w * q + w
    ensures a / w == q
  {
    var q' := a / w;
    assert a == w * q' + a % w;
    assert w * (q + 1) == w * q + w && w * (q' + 1) == w * q' + w;
    MulCancel(w, q', q + 1);
    MulCancel(w, q, q' + 1);
  }

  /** Below count slots of width w, a falls in the slot a / w. */
  lemma OverrunSlot(a: nat, w: nat, count: nat)
    requires a < w * count
    ensures w > 0 && a / w < count && w * (a / w) <= a < w * (a / w) + w
  {
    var q := a / w;
    assert a == w * q + a % w;
    if q >= count {
      MulMono(w, count, q);
    }
  }

  /**
   * Of count tables of width bytes laid end to end from byte start, the first
   * one that reaches past len bytes; None when they all fit.
   */
  function Overrun(start: nat, width: nat, count: nat, len: nat): (r: Option<nat>)
    requires start <= len
    ensures r.None? <==> start + width * count <= len
    ensures r.Some? ==> r.value < count && start + width * r.value <= len < start + width * r.value + width
  {
    if start + width * count <= len then None
    else
      OverrunSlot(len - start, width, count);
      Some((len - start) / width)
  }

  /** A table that starts inside the data and ends past it is the first to overrun. */
  lemma OverrunAt(start: nat, width: nat, count: nat, len: nat, i: nat)
    requires start <= len && i < count
    requires start + width * i <= len < start + width * i + width
    ensures Overrun(start, width, count, len) == Some(i)
  {
    SlotFits(width, i, count);
    DivSlot(len - start, width, i);
  }

  // ---------------------------------------------------------------- tables

  /** The nine s15Fixed16 matrix entries from byte 12, row by row. */
  function MatrixEntries(raw: seq<byte>): (r: seq<real>)
    requires |raw| >= 48
    ensures |r| == 9 && forall i :: 0 <= i < 9 ==> r[i] == S15At(raw, 12 + 4 * i)
  {
    seq(9, i requires 0 <= i < 9 => S15At(raw, 12 + 4 * i))
  }

  /** The matrix loop of both decoders. */
  method ReadMatrix(raw: seq<byte>) returns (m: seq<real>)
    requires |raw| >= 48
    ensures m == MatrixEntries(raw)
  {
    var matrix := new real[9];
    for i := 0 to 9
      invariant forall k :: 0 <= k < i ==> matrix[k] == S15At(raw, 12 + 4 * k)
    {
      var off := 12 + i * 4;
      matrix[i] := ReadS15Fixed16BE(raw[off..off + 4]);
    }
    m := matrix[..];
  }

  /** A lut16 curve of n 16-bit entries from byte at. */
  function U16sAt(raw: seq<byte>, at: nat, n: nat): (r: seq<u16>)
    requires at + 2 * n <= |raw|
    ensures |r| == n && forall j :: 0 <= j < n ==> r[j] == U16(raw, at + 2 * j)
  {
    seq(n, j requires 0 <= j < n => U16(raw, at + 2 * j))
  }

  /** The entry loop of one lut16 curve. */
  method ReadCurve16(raw: seq<byte>, at: nat, n: nat) returns (curve: seq<u16>)
    requires at + 2 * n <= |raw|
    ensures curve == U16sAt(raw, at, n)
  {
    var entries := new u16[n];
    for j := 0 to n
      invariant forall k :: 0 <= k < j ==> entries[k] == U16(raw, at + 2 * k)
    {
      entries[j] := U16(raw, at + j * 2);
    }
    curve := entries[..];
  }

  /** count lut16 curves of n entries each, end to end from byte start. */
  function Curves16At(raw: seq<byte>, start: nat, n: nat, count: nat): (r: seq<seq<u16>>)
    requires start + 2 * n * count <= |raw|
    ensures |r| == count
  {
    seq(count, i requires 0 <= i < count =>
      SlotFits(2 * n, i, count);
      U16sAt(raw, start + 2 * n * i, n))
  }

  /** A lut16 curve table from byte start: its curves, or the first curve that does not fit. */
  function Curves16(raw: seq<byte>, start: nat, n: nat, count: nat): (r: Result<seq<seq<u16>>, nat>)
    requires start <= |raw|
  {
    match Overrun(start, 2 * n, count, |raw|)
    case Some(i) => Failure(i)
    case None => Success(Curves16At(raw, start, n, count))
  }

  /** The curve loop of mft2Decoder: each curve is bounds-checked before it is read. */
  method ReadCurves16(raw: seq<byte>, start: nat, n: nat, count: nat) returns (r: Result<seq<seq<u16>>, nat>)
    requires start <= |raw|
    ensures r == Curves16(raw, start, n, count)
  {
    var curves := new seq<u16>[count](_ => []);
    var offset := start;
    for i := 0 to count
      invariant offset == start + 2 * n * i <= |raw|
      invariant forall k :: 0 <= k < i ==>
                  start + 2 * n * k + 2 * n <= |raw| && curves[k] == U16sAt(raw, start + 2 * n * k, n)
    {
      var end := offset + n * 2;
      if end > |raw| {
        OverrunAt(start, 2 * n, count, |raw|, i);
        return Failure(i);
      }
      var curve := ReadCurve16(raw, offset, n);
      curves[i] := curve;
      assert 2 * n * (i + 1) == 2 * n * i + 2 * n;
      offset := end;
    }
    assert curves[..] == Curves16At(raw, start, n, count);
    r := Success(curves[..]);
  }

  /** count lut8 curves of 256 bytes each, end to end from byte start. */
  function Curves8At(raw: seq<byte>, start: nat, count: nat): (r: seq<seq<byte>>)
    requires start + 256 * count <= |raw|
    ensures |r| == count
    ensures forall i :: 0 <= i < count ==> r[i] == raw[start + 256 * i..start + 256 * i + 256]
  {
    seq(count, i requires 0 <= i < count => raw[start + 256 * i..start + 256 * i + 256])
  }

  /** A lut8 curve table from byte start: its curves, or the first curve that does not fit. */
  function Curves8(raw: seq<byte>, start: nat, count: nat): (r: Result<seq<seq<byte>>, nat>)
    requires start <= |raw|
  {
    match Overrun(start, 256, count, |raw|)
    case Some(i) => Failure(i)
    case None => Success(Curves8At(raw, start, count))
  }

  /** The curve loop of mft1Decoder: each curve is bounds-checked before it is sliced. */
  method ReadCurves8(raw: seq<byte>, start: nat, count: nat) returns (r: Result<seq<seq<byte>>, nat>)
    requires start <= |raw|
    ensures r == Curves8(raw, start, count)
  {
    var curves := new seq<byte>[count](_ => []);
    var offset := start;
    for i := 0 to count
      invariant offset == start + 256 * i <= |raw|
      invariant forall k :: 0 <= k < i ==> curves[k] == raw[start + 256 * k..start + 256 * k + 256]
    {
      if offset + 256 > |raw| {
        OverrunAt(start, 256, count, |raw|, i);
        return Failure(i);
      }
      curves[i] := raw[offset..offset + 256];
      offset := offset + 256;
    }
    assert curves[..] == Curves8At(raw, start, count);
    r := Success(curves[..]);
  }

  /** count 8-bit table entries from byte at, each divided by 255. */
  function ByteEntriesAt(raw: seq<byte>, at: nat, count: nat): (r: seq<real>)
    requires at + count <= |raw|
    ensures |r| == count && forall i :: 0 <= i < count ==> r[i] == raw[at + i] as real / 255.0
  {
    seq(count, i requires 0 <= i < count => raw[at + i] as real / 255.0)
  }

  /** The table loop of mft1Decoder. */
  method ReadByteEntries(raw: seq<byte>, at: nat, count: nat) returns (values: seq<real>)
    requires at + count <= |raw|
    ensures values == ByteEntriesAt(raw, at, count)
  {
    var entries := new real[count];
    for i := 0 to count
      invariant forall k :: 0 <= k < i ==> entries[k] == raw[at + k] as real / 255.0
    {
      entries[i] := raw[at + i] as real / 255.0;
    }
    values := entries[..];
  }

  // ---------------------------------------------------------------- lut16 decoder

  /** Where a lut16 block's last table ends: the curves, the table and the output curves after byte 52. */
  function Mft2End(raw: seq<byte>): int
    requires |raw| >= 52
  {
    var inCh, outCh := raw[8] as int, raw[9] as int;
    52 + Span(2 * U16(raw, 48), inCh) + 2 * Span(IntPow(raw[10], inCh), outCh) + Span(2 * U16(raw, 50), outCh)
  }

  /**
   * mft2Decoder: at least 52 bytes; then the input curves (one of U16@48
   * entries per input channel), the table of grid^in·out entries and the
   * output curves (one of U16@50 entries per output channel), each
   * bounds-checked before it is read.  The error names the first table that
   * reaches past the end: input curve i starts inside the block and ends
   * past it, or all input curves fit and the table does not, or the table
   * fits and output curve i is the first that does not.  Bytes past the
   * output curves are ignored.
   */
  function DecodeMft2(raw: seq<byte>): (r: Result<TagValue, Error>)
    ensures |raw| < 52 ==> r == Failure(TooShort("mft2"))
    ensures r.Success? ==>
              && |raw| >= 52 && r.value.Mft2?
              && var inCh, outCh, grid := raw[8] as nat, raw[9] as nat, raw[10] as nat;
              var inEntries, outEntries := U16(raw, 48) as nat, U16(raw, 50) as nat;
              var clutStart := 52 + Span(2 * inEntries, inCh);
              var entries := Span(IntPow(grid, inCh), outCh);
              var outStart := clutStart + 2 * entries;
              && outStart + Span(2 * outEntries, outCh) <= |raw|
              && var t := r.value.mft2;
              && t.inputChannels == raw[8] && t.outputChannels == raw[9] && t.gridPoints == raw[10]
              && t.matrix == MatrixEntries(raw)
              && t.inputCurves == Curves16At(raw, 52, inEntries, inCh)
              && t.clut == EntriesAt(raw, clutStart, entries)
              && t.outputCurves == Curves16At(raw, outStart, outEntries, outCh)
    ensures r.Failure? && |raw| >= 52 ==>
              var inCh, outCh := raw[8] as nat, raw[9] as nat;
              var inW, outW := 2 * U16(raw, 48), 2 * U16(raw, 50);
              var clutStart := 52 + Span(inW, inCh);
              var outStart := clutStart + 2 * Span(IntPow(raw[10], inCh), outCh);
              && (r.error.Mft2InputCurve? || r.error == Mft2ClutTruncated || r.error.Mft2OutputCurve?)
              && (r.error.Mft2InputCurve? ==>
                    r.error.channel < inCh && 52 + inW * r.error.channel <= |raw| < 52 + inW * r.error.channel + inW)
              && (r.error == Mft2ClutTruncated ==> clutStart <= |raw| < outStart)
              && (r.error.Mft2OutputCurve? ==>
                    outStart <= |raw| && r.error.channel < outCh &&
                    outStart + outW * r.error.channel <= |raw| < outStart + outW * r.error.channel + outW)
  {
    if |raw| < 52 then Failure(TooShort("mft2"))
    else
      var inCh, outCh, grid := raw[8] as nat, raw[9] as nat, raw[10] as nat;
      var inEntries, outEntries := U16(raw, 48) as nat, U16(raw, 50) as nat;
      match Curves16(raw, 52, inEntries, inCh)
      case Failure(i) => Failure(Mft2InputCurve(i))
      case Success(inputCurves) =>
        var clutStart := 52 + Span(2 * inEntries, inCh);
        var entries := Span(IntPow(grid, inCh), outCh);
        if clutStart + 2 * entries > |raw| then Failure(Mft2ClutTruncated)
        else
          var outStart := clutStart + 2 * entries;
          match Curves16(raw, outStart, outEntries, outCh)
          case Failure(i) => Failure(Mft2OutputCurve(i))
          case Success(outputCurves) =>
            Success(Mft2(Mft2Tag(raw[8], raw[9], raw[10], MatrixEntries(raw),
                                 inputCurves, EntriesAt(raw, clutStart, entries), outputCurves)))
  }

  /** mft2Decoder with the source's loops, advancing the offset table by table. */
  method Mft2Decoder(raw: seq<byte>) returns (r: Result<TagValue, Error>)
    ensures r == DecodeMft2(raw)
  {
    if |raw| < 52 {
      return Failure(TooShort("mft2"));
    }
    var inCh, outCh, grid := raw[8] as nat, raw[9] as nat, raw[10] as nat;
    var matrix := ReadMatrix(raw);
    var inEntries, outEntries := U16(raw, 48) as nat, U16(raw, 50) as nat;
    var offset := 52;
    var inputCurves := ReadCurves16(raw, offset, inEntries, inCh);
    if inputCurves.Failure? {
      return Failure(Mft2InputCurve(inputCurves.error));
    }
    offset := offset + Span(2 * inEntries, inCh);
    var clutEntries := Span(IntPow(grid, inCh), outCh);
    if offset + clutEntries * 2 > |raw| {
      return Failure(Mft2ClutTruncated);
    }
    var clut := ReadEntries(raw, offset, clutEntries);
    offset := offset + clutEntries * 2;
    var outputCurves := ReadCurves16(raw, offset, outEntries, outCh);
    if outputCurves.Failure? {
      return Failure(Mft2OutputCurve(outputCurves.error));
    }
    r := Success(Mft2(Mft2Tag(raw[8], raw[9], raw[10], matrix, inputCurves.value, clut, outputCurves.value)));
  }

  /** A lut16 block decodes exactly when all of its tables fit; bytes past them are allowed. */
  lemma Mft2Fits(raw: seq<byte>)
    ensures DecodeMft2(raw).Success? <==> |raw| >= 52 && Mft2End(raw) <= |raw|
  {
    if |raw| >= 52 {
      var inCh, outCh := raw[8] as nat, raw[9] as nat;
      var inEntries, outEntries := U16(raw, 48) as nat, U16(raw, 50) as nat;
      var entries := Span(IntPow(raw[10], inCh), outCh);
      assert Mft2End(raw) == 52 + Span(2 * inEntries, inCh) + 2 * entries + Span(2 * outEntries, outCh);
    }
  }

  // ---------------------------------------------------------------- lut8 decoder

  /** Where a lut8 block's last table ends: the 256-byte curves and the table after byte 48. */
  function Mft1End(raw: seq<byte>): int
    requires |raw| >= 48
  {
    var inCh, outCh := raw[8] as int, raw[9] as int;
    48 + 256 * inCh + Span(IntPow(raw[10], inCh), outCh) + 256 * outCh
  }

  /**
   * mft1Decoder: at least 48 bytes; then 256-byte input curves, the table of
   * grid^in·out one-byte entries and 256-byte output curves, each
   * bounds-checked before it is read.  The error names the first table that
   * reaches past the end, as for lut16.  Bytes past the output curves are
   * ignored.
   */
  function DecodeMft1(raw: seq<byte>): (r: Result<TagValue, Error>)
    ensures |raw| < 48 ==> r == Failure(TooShort("mft1"))
    ensures r.Success? ==>
              && |raw| >= 48 && r.value.Mft1?
              && var inCh, outCh, grid := raw[8] as nat, raw[9] as nat, raw[10] as nat;
              var clutStart := 48 + 256 * inCh;
              var entries := Span(IntPow(grid, inCh), outCh);
              && clutStart + entries + 256 * outCh <= |raw|
              && var t := r.value.mft1;
              && t.inputChannels == raw[8] && t.outputChannels == raw[9] && t.gridPoints == raw[10]
              && t.matrix == MatrixEntries(raw)
              && t.inputCurves == Curves8At(raw, 48, inCh)
              && t.clut == ByteEntriesAt(raw, clutStart, entries)
              && t.outputCurves == Curves8At(raw, clutStart + entries, outCh)
    ensures r.Failure? && |raw| >= 48 ==>
              var inCh, outCh := raw[8] as nat, raw[9] as nat;
              var clutStart := 48 + 256 * inCh;
              var outStart := clutStart + Span(IntPow(raw[10], inCh), outCh);
              && (r.error.Mft1InputCurve? || r.error == Mft1ClutTruncated || r.error.Mft1OutputCurve?)
              && (r.error.Mft1InputCurve? ==>
                    r.error.channel < inCh && 48 + 256 * r.error.channel <= |raw| < 48 + 256 * r.error.channel + 256)
              && (r.error == Mft1ClutTruncated ==> clutStart <= |raw| < outStart)
              && (r.error.Mft1OutputCurve? ==>
                    outStart <= |raw| && r.error.channel < outCh &&
                    outStart + 256 * r.error.channel <= |raw| < outStart + 256 * r.error.channel + 256)
  {
    if |raw| < 48 then Failure(TooShort("mft1"))
    else
      var inCh, outCh, grid := raw[8] as nat, raw[9] as nat, raw[10] as nat;
      match Curves8(raw, 48, inCh)
      case Failure(i) => Failure(Mft1InputCurve(i))
      case Success(inputCurves) =>
        var clutStart := 48 + 256 * inCh;
        var entries := Span(IntPow(grid, inCh), outCh);
        if clutStart + entries > |raw| then Failure(Mft1ClutTruncated)
        else
          match Curves8(raw, clutStart + entries, outCh)
          case Failure(i) => Failure(Mft1OutputCurve(i))
          case Success(outputCurves) =>
            Success(Mft1(Mft1Tag(raw[8], raw[9], raw[10], MatrixEntries(raw),
                                 inputCurves, ByteEntriesAt(raw, clutStart, entries), outputCurves)))
  }

  /** mft1Decoder with the source's loops, advancing the offset table by table. */
  method Mft1Decoder(raw: seq<byte>) returns (r: Result<TagValue, Error>)
    ensures r == DecodeMft1(raw)
  {
    if |raw| < 48 {
      return Failure(TooShort("mft1"));
    }
    var inCh, outCh, grid := raw[8] as nat, raw[9] as nat, raw[10] as nat;
    var matrix := ReadMatrix(raw);
    var offset := 48;
    var inputCurves := ReadCurves8(raw, offset, inCh);
    if inputCurves.Failure? {
      return Failure(Mft1InputCurve(inputCurves.error));
    }
    offset := offset + 256 * inCh;
    var sizePerChannel := IntPow(grid, inCh);
    var clutBytes := Span(sizePerChannel, outCh);
    if offset + clutBytes > |raw| {
      return Failure(Mft1ClutTruncated);
    }
    var clutValues := ReadByteEntries(raw, offset, clutBytes);
    offset := offset + clutBytes;
    var outputCurves := ReadCurves8(raw, offset, outCh);
    if outputCurves.Failure? {
      return Failure(Mft1OutputCurve(outputCurves.error));
    }
    r := Success(Mft1(Mft1Tag(raw[8], raw[9], raw[10], matrix, inputCurves.value, clutValues, outputCurves.value)));
  }

  /** A lut8 block decodes exactly when all of its tables fit; bytes past them are allowed. */
  lemma Mft1Fits(raw: seq<byte>)
    ensures DecodeMft1(raw).Success? <==> |raw| >= 48 && Mft1End(raw) <= |raw|
  {
  }

  // ---------------------------------------------------------------- lut16 transform

  /**
   * Channel i of vs through curve i, as both curve stages of the lut16
   * transform do it: clamp to [0, 1], then the curve lookup at v·(n-1); a
   * lookup outside the curve is that stage's error for channel i.  A missing
   * curve is an unchecked index in the source.
   */
  function Curve16Step(curves: seq<seq<u16>>, vs: seq<real>, output: bool, i: nat): (r: Result<real, Error>)
    requires i < |vs|
    ensures r.Success? ==> 0.0 <= r.value <= 1.0
    ensures r.Failure? ==> r.error == Panic(MissingCurve) ||
                           r.error == (if output then Mft2OutputCurveIndex(i) else Mft2InputCurveIndex(i))
  {
    if i >= |curves| then Failure(Panic(MissingCurve))
    else
      var curve := curves[i];
      var pos := Position(Clamp01(vs[i]), |curve|);
      match PointsLookup(curve, pos)
      case Failure(_) => Failure(if output then Mft2OutputCurveIndex(i) else Mft2InputCurveIndex(i))
      case Success(y) => LookupBounded(curve, pos); Success(y)
  }

  /** The channels of a curve stage, as the items of a fold. */
  function Curve16Item(curves: seq<seq<u16>>, vs: seq<real>, output: bool): nat --> Result<real, Error> {
    (i: nat) requires i < |vs| => Curve16Step(curves, vs, output, i)
  }

  /** A curve stage: every channel in order, stopping at the first that fails. */
  function Curve16Stage(curves: seq<seq<u16>>, vs: seq<real>, output: bool): (r: Result<seq<real>, Error>)
    ensures r.Success? ==> |r.value| == |vs|
  {
    FoldUpTo(Curve16Item(curves, vs, output), |vs|)
  }

  /** The body of a curve loop of the lut16 transform, for channel i. */
  method CurveChannel16(curves: seq<seq<u16>>, vs: seq<real>, output: bool, i: nat) returns (r: Result<real, Error>)
    requires i < |vs|
    ensures r == Curve16Step(curves, vs, output, i)
  {
    var val := Clamp01(vs[i]);
    if i >= |curves| {
      return Failure(Panic(MissingCurve));
    }
    var curve := curves[i];
    var pos := Position(val, |curve|);
    var lo, hi := Floor(pos), Ceil(pos);
    FloorCeil(pos);
    if lo < 0 || hi >= |curve| {
      return Failure(if output then Mft2OutputCurveIndex(i) else Mft2InputCurveIndex(i));
    }
    if lo == hi {
      r := Success(curve[lo] as real / 65535.0);
    } else {
      var frac := pos - lo as real;
      var vlo := curve[lo] as real / 65535.0;
      var vhi := curve[hi] as real / 65535.0;
      r := Success(vlo + Mul(frac, vhi - vlo));
    }
  }

  /** A curve loop of the lut16 transform, filling one value per channel. */
  method ApplyCurves16(curves: seq<seq<u16>>, vs: seq<real>, output: bool) returns (r: Result<seq<real>, Error>)
    ensures r == Curve16Stage(curves, vs, output)
  {
    ghost var item := Curve16Item(curves, vs, output);
    var mapped := new real[|vs|];
    for i := 0 to |vs|
      invariant FoldUpTo(item, i) == Success(mapped[..i])
    {
      var y := CurveChannel16(curves, vs, output, i);
      assert item(i) == y;
      if y.Failure? {
        FoldStop(item, i, |vs|);
        return Failure(y.error);
      }
      FoldStep(item, i, mapped[..i]);
      ghost var before := mapped[..i];
      mapped[i] := y.value;
      assert mapped[..i + 1] == before + [y.value];
    }
    assert mapped[..] == mapped[..|vs|];
    r := Success(mapped[..]);
  }

  /** The grid loop of the lut16 transform: every channel's cell on a grid of `grid` points. */
  method UniformCells(grid: nat, vs: seq<real>) returns (q: Cube)
    ensures q == Cells(Repeat(grid as int, |vs|), vs)
  {
    var n := |vs|;
    var gridPos := new int[n];
    var gridFrac := new real[n];
    for i := 0 to n
      invariant forall k :: 0 <= k < i ==> (gridFrac[k], gridPos[k]) == CellOf(vs[k], grid)
    {
      var cell := CellOf(vs[i], grid);
      gridPos[i] := cell.1;
      gridFrac[i] := cell.0;
    }
    ghost var c := Cells(Repeat(grid as int, n), vs);
    assert gridPos[..] == c.pos && gridFrac[..] == c.frac;
    q := Cube(Repeat(grid as int, n), gridPos[..], gridFrac[..]);
  }

  /** The lut16 corner loop reads the table without a check: a read outside it is a runtime panic. */
  function Unguarded(f: Fault): Error {
    Panic(ClutValueIndex)
  }

  /**
   * MFT2Tag.Transform: the arity; the input curves; a table of at least
   * grid^in·out entries; the interpolation over the cell of the curved
   * values, whose positions are not clamped and whose corners are not
   * checked; then the output curves.  The matrix is not used.
   */
  function Mft2Transform(t: Mft2Tag, input: seq<real>): (r: Result<seq<real>, Error>)
    ensures |input| != t.inputChannels as int ==> r == Failure(ChannelCount(t.inputChannels as nat, |input|))
    ensures |input| == t.inputChannels as int && Curve16Stage(t.inputCurves, input, false).Failure? ==>
              r == Failure(Curve16Stage(t.inputCurves, input, false).error)
    ensures |input| == t.inputChannels as int && Curve16Stage(t.inputCurves, input, false).Success? &&
            |t.clut| < Span(IntPow(t.gridPoints as nat, |input|), t.outputChannels as nat) ==>
              r == Failure(Mft2ClutIndex)
    ensures r.Success? ==> |r.value| == t.outputChannels as int
  {
    if |input| != t.inputChannels as int then Failure(ChannelCount(t.inputChannels as nat, |input|))
    else
      var mapped :- Curve16Stage(t.inputCurves, input, false);
      var n, nOut, grid := t.inputChannels as nat, t.outputChannels as nat, t.gridPoints as nat;
      if |t.clut| < Span(IntPow(grid, n), nOut) then Failure(Mft2ClutIndex)
      else
        var q := Cells(Repeat(grid as int, n), mapped);
        var out :- Blend(q, t.clut, nOut, false, NumCorners(n)).MapError(Unguarded);
        Curve16Stage(t.outputCurves, out, true)
  }

  /** MFT2Tag.Transform with the source's loops. */
  method Mft2Transformer(t: Mft2Tag, input: seq<real>) returns (r: Result<seq<real>, Error>)
    ensures r == Mft2Transform(t, input)
  {
    if |input| != t.inputChannels as int {
      return Failure(ChannelCount(t.inputChannels as nat, |input|));
    }
    var mapped := ApplyCurves16(t.inputCurves, input, false);
    if mapped.Failure? {
      return Failure(mapped.error);
    }
    var n, nOut, grid := t.inputChannels as nat, t.outputChannels as nat, t.gridPoints as nat;
    var sizePerChannel := IntPow(grid, n);
    if |t.clut| < Span(sizePerChannel, nOut) {
      return Failure(Mft2ClutIndex);
    }
    var q := UniformCells(grid, mapped.value);
    var out := Interpolate(q, t.clut, nOut, false);
    if out.Failure? {
      return Failure(Unguarded(out.error));
    }
    r := ApplyCurves16(t.outputCurves, out.value, true);
  }

  // ---------------------------------------------------------------- lut8 transform

  /** int(v·255) for v in [0, 1]: the entry of a 256-entry curve at or below v. */
  function Nearest(v: real): (k: int)
    requires 0.0 <= v <= 1.0
    ensures 0 <= k <= 255
  {
    ScaleUp(v, 255.0);
    Trunc(Mul(v, 255.0))
  }

  /**
   * Channel i of vs through curve i, as both curve stages of the lut8
   * transform do it: clamp to [0, 1] and take the entry at int(v·255), with
   * no interpolation; an entry past the curve is that stage's error, naming
   * the entry.  A missing curve is an unchecked index in the source.
   */
  function Curve8Step(curves: seq<seq<byte>>, vs: seq<real>, output: bool, i: nat): (r: Result<real, Error>)
    requires i < |vs|
    ensures r.Success? ==> 0.0 <= r.value <= 1.0
  {
    if i >= |curves| then Failure(Panic(MissingCurve))
    else
      var idx := Nearest(Clamp01(vs[i]));
      if idx >= |curves[i]| then Failure(if output then Mft1OutputCurveIndex(idx) else Mft1InputCurveIndex(idx))
      else Success(curves[i][idx] as real / 255.0)
  }

  function Curve8Item(curves: seq<seq<byte>>, vs: seq<real>, output: bool): nat --> Result<real, Error> {
    (i: nat) requires i < |vs| => Curve8Step(curves, vs, output, i)
  }

  /** A lut8 curve stage: every channel in order, stopping at the first that fails. */
  function Curve8Stage(curves: seq<seq<byte>>, vs: seq<real>, output: bool): (r: Result<seq<real>, Error>)
    ensures r.Success? ==> |r.value| == |vs|
  {
    FoldUpTo(Curve8Item(curves, vs, output), |vs|)
  }

  /** A curve loop of the lut8 transform, filling one value per channel. */
  method ApplyCurves8(curves: seq<seq<byte>>, vs: seq<real>, output: bool) returns (r: Result<seq<real>, Error>)
    ensures r == Curve8Stage(curves, vs, output)
  {
    ghost var item := Curve8Item(curves, vs, output);
    var curved := new real[|vs|];
    for i := 0 to |vs|
      invariant FoldUpTo(item, i) == Success(curved[..i])
    {
      var v := Clamp01(vs[i]);
      if i >= |curves| {
        FoldStop(item, i, |vs|);
        return Failure(Panic(MissingCurve));
      }
      var idx := Nearest(v);
      if idx >= |curves[i]| {
        FoldStop(item, i, |vs|);
        return Failure(if output then Mft1OutputCurveIndex(idx) else Mft1InputCurveIndex(idx));
      }
      FoldStep(item, i, curved[..i]);
      ghost var before := curved[..i];
      curved[i] := curves[i][idx] as real / 255.0;
      assert curved[..i + 1] == before + [curves[i][idx] as real / 255.0];
    }
    assert curved[..] == curved[..|vs|];
    r := Success(curved[..]);
  }

  /**
   * The cell of v on n points as the lut8 transform finds it: math.Floor of
   * v·(n-1), held below n-1, and the fraction past it (1 at the upper edge).
   */
  function FloorCellOf(v: real, n: int): (real, int) {
    var p := Mul(v, (n - 1) as real);
    var pos := Floor(p);
    if pos >= n - 1 then (1.0, n - 2) else (p - pos as real, pos)
  }

  /** The cells of every channel on a grid of `grid` points each. */
  function FloorCells(grid: nat, vs: seq<real>): (q: Cube)
    ensures q.Shaped() && q.grid == Repeat(grid as int, |vs|)
    ensures forall i :: 0 <= i < |vs| ==> (q.frac[i], q.pos[i]) == FloorCellOf(vs[i], grid)
  {
    Cube(Repeat(grid as int, |vs|),
         seq(|vs|, i requires 0 <= i < |vs| => FloorCellOf(vs[i], grid).1),
         seq(|vs|, i requires 0 <= i < |vs| => FloorCellOf(vs[i], grid).0))
  }

  /** The grid loop of the lut8 transform. */
  method FloorGridCells(grid: nat, vs: seq<real>) returns (q: Cube)
    ensures q == FloorCells(grid, vs)
  {
    var n := |vs|;
    var positions := new int[n];
    var fracs := new real[n];
    for i := 0 to n
      invariant forall k :: 0 <= k < i ==> (fracs[k], positions[k]) == FloorCellOf(vs[k], grid)
    {
      var p := Mul(vs[i], (grid - 1) as real);
      var pos := Floor(p);
      if pos >= grid - 1 {
        pos := grid - 2;
        fracs[i] := 1.0;
      } else {
        fracs[i] := p - pos as real;
      }
      positions[i] := pos;
    }
    ghost var c := FloorCells(grid, vs);
    assert positions[..] == c.pos && fracs[..] == c.frac;
    q := Cube(Repeat(grid as int, n), positions[..], fracs[..]);
  }

  /** The lut8 corner loop checks the grid and the table; only a negative index slips through. */
  function Mft1Fault(f: Fault): Error {
    match f
    case OutsideGrid(d) => Mft1GridIndex(d)
    case PastValues => Mft1ClutIndex
    case BadIndex => Panic(ClutValueIndex)
  }

  /**
   * MFT1Tag.Transform: the arity; the input curves; the interpolation over
   * the cell of the curved values, every corner checked against the grid
   * and the table; then the output curves.  The matrix is not used.
   */
  function Mft1Transform(t: Mft1Tag, input: seq<real>): (r: Result<seq<real>, Error>)
    ensures |input| != t.inputChannels as int ==> r == Failure(ChannelCount(t.inputChannels as nat, |input|))
    ensures |input| == t.inputChannels as int && Curve8Stage(t.inputCurves, input, false).Failure? ==>
              r == Failure(Curve8Stage(t.inputCurves, input, false).error)
    ensures r.Success? ==> |r.value| == t.outputChannels as int
  {
    if |input| != t.inputChannels as int then Failure(ChannelCount(t.inputChannels as nat, |input|))
    else
      var curved :- Curve8Stage(t.inputCurves, input, false);
      var q := FloorCells(t.gridPoints as nat, curved);
      var result :- Blend(q, t.clut, t.outputChannels as nat, true, NumCorners(|input|)).MapError(Mft1Fault);
      Curve8Stage(t.outputCurves, result, true)
  }

  /** MFT1Tag.Transform with the source's loops. */
  method Mft1Transformer(t: Mft1Tag, input: seq<real>) returns (r: Result<seq<real>, Error>)
    ensures r == Mft1Transform(t, input)
  {
    if |input| != t.inputChannels as int {
      return Failure(ChannelCount(t.inputChannels as nat, |input|));
    }
    var curved := ApplyCurves8(t.inputCurves, input, false);
    if curved.Failure? {
      return Failure(curved.error);
    }
    var q := FloorGridCells(t.gridPoints as nat, curved.value);
    var result := Interpolate(q, t.clut, t.outputChannels as nat, true);
    if result.Failure? {
      return Failure(Mft1Fault(result.error));
    }
    r := ApplyCurves8(t.outputCurves, result.value, true);
  }

  // ---------------------------------------------------------------- properties

  /** Every channel of n has a curve, and no curve is empty. */
  predicate Covers16(curves: seq<seq<u16>>, n: nat) {
    n <= |curves| && forall i :: 0 <= i < n ==> |curves[i]| > 0
  }

  /**
   * A lut16 curve stage over curves that cover its channels succeeds: each
   * value is the curve looked up at v·(len-1) for the clamped v, and lies in [0, 1].
   */
  lemma Curve16StageSucceeds(curves: seq<seq<u16>>, vs: seq<real>, output: bool)
    requires Covers16(curves, |vs|)
    ensures var r := Curve16Stage(curves, vs, output);
            && r.Success?
            && forall i :: 0 <= i < |vs| ==>
                 && PointsLookup(curves[i], Position(Clamp01(vs[i]), |curves[i]|)).Success?
                 && r.value[i] == PointsLookup(curves[i], Position(Clamp01(vs[i]), |curves[i]|)).value
                 && 0.0 <= r.value[i] <= 1.0
  {
    var item := Curve16Item(curves, vs, output);
    forall j: nat | j < |vs|
      ensures PointsLookup(curves[j], Position(Clamp01(vs[j]), |curves[j]|)).Success?
    {
      PositionInRange(Clamp01(vs[j]), |curves[j]|);
      LookupInRange(curves[j], Position(Clamp01(vs[j]), |curves[j]|));
    }
    FoldSuccess(item, |vs|);
  }

  /** An empty first input curve makes every lut16 transform fail on its first channel. */
  lemma Mft2EmptyInputCurve(t: Mft2Tag, input: seq<real>)
    requires |input| == t.inputChannels as int >= 1
    requires |t.inputCurves| >= 1 && t.inputCurves[0] == []
    ensures Mft2Transform(t, input) == Failure(Mft2InputCurveIndex(0))
  {
    var item := Curve16Item(t.inputCurves, input, false);
    var v := Clamp01(input[0]);
    assert Position(v, 0) == -v;
    FloorCeil(-v);
    assert item(0) == Failure(Mft2InputCurveIndex(0));
    FoldFailAt(item, |input|, 0);
  }

  /**
   * On a grid of at least two points per dimension, the cell of values in
   * [0, 1] lies inside the grid, which holds grid^n nodes: every corner's
   * index is below grid^n.
   */
  lemma Mft2CornersInside(grid: nat, vs: seq<real>)
    requires grid >= 2
    requires forall i :: 0 <= i < |vs| ==> 0.0 <= vs[i] <= 1.0
    ensures var q := Cells(Repeat(grid as int, |vs|), vs);
            && q.Inside()
            && Stride(q.grid, 0) == IntPow(grid, |vs|)
            && forall c: nat :: 0 <= CornerIndex(q, c, 0) < IntPow(grid, |vs|)
  {
    var q := Cells(Repeat(grid as int, |vs|), vs);
    CellsInside(Repeat(grid as int, |vs|), vs);
    StrideOfRepeat(grid, |vs|, 0);
    forall c: nat ensures 0 <= CornerIndex(q, c, 0) < IntPow(grid, |vs|) {
      InsideIndex(q, c, 0);
    }
  }

  /**
   * A lut16 table the transform can always answer: one non-empty curve per
   * channel on either side, two grid points or more, and the full table.
   */
  predicate Mft2Complete(t: Mft2Tag) {
    && Covers16(t.inputCurves, t.inputChannels as nat)
    && Covers16(t.outputCurves, t.outputChannels as nat)
    && t.gridPoints >= 2
    && |t.clut| >= Span(IntPow(t.gridPoints as nat, t.inputChannels as nat), t.outputChannels as nat)
  }

  /** A complete lut16 table transforms every input of its arity into outputChannels values in [0, 1]. */
  lemma Mft2Succeeds(t: Mft2Tag, input: seq<real>)
    requires Mft2Complete(t) && |input| == t.inputChannels as int
    ensures var r := Mft2Transform(t, input);
            r.Success? && |r.value| == t.outputChannels as int &&
            forall i :: 0 <= i < |r.value| ==> 0.0 <= r.value[i] <= 1.0
  {
    var n, nOut, grid := t.inputChannels as nat, t.outputChannels as nat, t.gridPoints as nat;
    Curve16StageSucceeds(t.inputCurves, input, false);
    var mapped := Curve16Stage(t.inputCurves, input, false).value;
    Mft2CornersInside(grid, mapped);
    var q := Cells(Repeat(grid as int, n), mapped);
    InsideBlend(q, t.clut, nOut, false, NumCorners(n));
    var out := Blend(q, t.clut, nOut, false, NumCorners(n)).value;
    Curve16StageSucceeds(t.outputCurves, out, true);
  }

  /** The parsed matrix never takes part in the lut16 transform. */
  lemma Mft2MatrixUnused(t: Mft2Tag, m: seq<real>, input: seq<real>)
    ensures Mft2Transform(t.(matrix := m), input) == Mft2Transform(t, input)
  {
  }

  /**
   * A decoded lut16 tag with two grid points or more and non-empty curves
   * is complete, so it transforms every input of its arity.
   */
  lemma DecodedMft2Succeeds(raw: seq<byte>, input: seq<real>)
    requires DecodeMft2(raw).Success?
    requires raw[10] >= 2 && U16(raw, 48) >= 1 && U16(raw, 50) >= 1
    requires |input| == raw[8] as int
    ensures Mft2Complete(DecodeMft2(raw).value.mft2)
    ensures Mft2Transform(DecodeMft2(raw).value.mft2, input).Success?
  {
    var t := DecodeMft2(raw).value.mft2;
    var inEntries, outEntries := U16(raw, 48) as nat, U16(raw, 50) as nat;
    forall i | 0 <= i < raw[8] as int ensures |t.inputCurves[i]| > 0 {
      SlotFits(2 * inEntries, i, raw[8] as nat);
    }
    var outStart := 52 + Span(2 * inEntries, raw[8] as nat) + 2 * Span(IntPow(raw[10] as nat, raw[8] as nat), raw[9] as nat);
    forall i | 0 <= i < raw[9] as int ensures |t.outputCurves[i]| > 0 {
      SlotFits(2 * outEntries, i, raw[9] as nat);
    }
    Mft2Succeeds(t, input);
  }

  /** The entry k/255 of a lut8 curve is found again by the nearest-entry rule. */
  lemma NearestEntry(k: nat)
    requires k <= 255
    ensures Nearest(k as real / 255.0) == k
  {
    assert Mul(k as real / 255.0, 255.0) == k as real;
  }

  /** Every channel of n has a curve of 256 entries, as the lut8 decoder reads them. */
  predicate Covers8(curves: seq<seq<byte>>, n: nat) {
    n <= |curves| && forall i :: 0 <= i < n ==> |curves[i]| == 256
  }

  /** A lut8 curve stage over full curves succeeds, each value the entry nearest below the clamped input. */
  lemma Curve8StageSucceeds(curves: seq<seq<byte>>, vs: seq<real>, output: bool)
    requires Covers8(curves, |vs|)
    ensures var r := Curve8Stage(curves, vs, output);
            && r.Success?
            && forall i :: 0 <= i < |vs| ==>
                 r.value[i] == curves[i][Nearest(Clamp01(vs[i]))] as real / 255.0 && 0.0 <= r.value[i] <= 1.0
  {
    FoldSuccess(Curve8Item(curves, vs, output), |vs|);
  }

  /** On values of at least 0, the floor of the lut8 grid loop and the truncation of the lut16 one agree. */
  lemma FloorCellsAreCells(grid: nat, vs: seq<real>)
    requires grid >= 1
    requires forall i :: 0 <= i < |vs| ==> 0.0 <= vs[i] <= 1.0
    ensures FloorCells(grid, vs) == Cells(Repeat(grid as int, |vs|), vs)
  {
    forall i | 0 <= i < |vs| ensures FloorCellOf(vs[i], grid) == CellOf(vs[i], grid) {
      ScaleUp(vs[i], (grid - 1) as real);
    }
    var a, b := FloorCells(grid, vs), Cells(Repeat(grid as int, |vs|), vs);
    assert a.pos == b.pos && a.frac == b.frac;
  }

  /** A lut8 table the transform can always answer. */
  predicate Mft1Complete(t: Mft1Tag) {
    && Covers8(t.inputCurves, t.inputChannels as nat)
    && Covers8(t.outputCurves, t.outputChannels as nat)
    && t.gridPoints >= 2
    && |t.clut| >= Span(IntPow(t.gridPoints as nat, t.inputChannels as nat), t.outputChannels as nat)
  }

  /** A complete lut8 table transforms every input of its arity into outputChannels values in [0, 1]. */
  lemma Mft1Succeeds(t: Mft1Tag, input: seq<real>)
    requires Mft1Complete(t) && |input| == t.inputChannels as int
    ensures var r := Mft1Transform(t, input);
            r.Success? && |r.value| == t.outputChannels as int &&
            forall i :: 0 <= i < |r.value| ==> 0.0 <= r.value[i] <= 1.0
  {
    var n, nOut, grid := t.inputChannels as nat, t.outputChannels as nat, t.gridPoints as nat;
    Curve8StageSucceeds(t.inputCurves, input, false);
    var curved := Curve8Stage(t.inputCurves, input, false).value;
    FloorCellsAreCells(grid, curved);
    Mft2CornersInside(grid, curved);
    var q := FloorCells(grid, curved);
    InsideBlend(q, t.clut, nOut, true, NumCorners(n));
    var result := Blend(q, t.clut, nOut, true, NumCorners(n)).value;
    Curve8StageSucceeds(t.outputCurves, result, true);
  }

  /** The parsed matrix never takes part in the lut8 transform. */
  lemma Mft1MatrixUnused(t: Mft1Tag, m: seq<real>, input: seq<real>)
    ensures Mft1Transform(t.(matrix := m), input) == Mft1Transform(t, input)
  {
  }

  /** A decoded lut8 tag with two grid points or more is complete, so it transforms every input of its arity. */
  lemma DecodedMft1Succeeds(raw: seq<byte>, input: seq<real>)
    requires DecodeMft1(raw).Success?
    requires raw[10] >= 2
    requires |input| == raw[8] as int
    ensures Mft1Complete(DecodeMft1(raw).value.mft1)
    ensures Mft1Transform(DecodeMft1(raw).value.mft1, input).Success?
  {
    Mft1Succeeds(DecodeMft1(raw).value.mft1, input);
  }

  /** The lut8 curve stages fail only with a missing curve or a curve index past its entries. */
  lemma {:induction false} Curve8Errors(curves: seq<seq<byte>>, vs: seq<real>, output: bool, k: nat)
    requires k <= |vs|
    ensures var r := FoldUpTo(Curve8Item(curves, vs, output), k);
            r.Failure? ==>
              r.error == Panic(MissingCurve) || r.error.Mft1InputCurveIndex? || r.error.Mft1OutputCurveIndex?
  {
    if k > 0 {
      Curve8Errors(curves, vs, output, k - 1);
      assert Curve8Item(curves, vs, output)(k - 1) == Curve8Step(curves, vs, output, k - 1);
    }
  }

  /** Every value a lut8 curve stage produces lies in [0, 1]. */
  lemma Curve8StageBounded(curves: seq<seq<byte>>, vs: seq<real>, output: bool)
    requires Curve8Stage(curves, vs, output).Success?
    ensures forall i :: 0 <= i < |vs| ==> 0.0 <= Curve8Stage(curves, vs, output).value[i] <= 1.0
  {
    var item := Curve8Item(curves, vs, output);
    FoldSuccess(item, |vs|);
    forall i | 0 <= i < |vs|
      ensures 0.0 <= Curve8Stage(curves, vs, output).value[i] <= 1.0
    {
      assert item(i) == Curve8Step(curves, vs, output, i);
    }
  }

  /**
   * The lut8 grid check never fires: math.Floor of the position is held at
   * grid-2 or below, so position plus bit stays below the grid on every
   * dimension, for every grid size and every input.
   */
  lemma Mft1NeverGridIndex(t: Mft1Tag, input: seq<real>)
    ensures var r := Mft1Transform(t, input);
            r.Failure? ==> !r.error.Mft1GridIndex?
  {
    var n, nOut, grid := t.inputChannels as nat, t.outputChannels as nat, t.gridPoints as nat;
    if |input| == n {
      Curve8Errors(t.inputCurves, input, false, |input|);
      var curved := Curve8Stage(t.inputCurves, input, false);
      if curved.Success? {
        var q := FloorCells(grid, curved.value);
        forall e | 0 <= e < |q.grid|
          ensures q.pos[e] + 1 < q.grid[e]
        {
          assert (q.frac[e], q.pos[e]) == FloorCellOf(curved.value[e], grid);
        }
        BlendNeverOutside(q, t.clut, nOut, true, NumCorners(n));
        var b := Blend(q, t.clut, nOut, true, NumCorners(n));
        if b.Success? {
          Curve8Errors(t.outputCurves, b.value, true, |b.value|);
        }
      }
    }
  }

  /**
   * On a grid of two points or more, once the input curves succeed, the lut8
   * transform fails with the table error exactly when a corner of the
   * input's cell reaches past the table.  The source does not compare the
   * table with grid^n·nOut up front: only the corners read are checked.
   */
  lemma Mft1ClutOutcome(t: Mft1Tag, input: seq<real>)
    requires |input| == t.inputChannels as int && t.gridPoints >= 2
    requires Curve8Stage(t.inputCurves, input, false).Success?
    ensures var q := FloorCells(t.gridPoints as nat, Curve8Stage(t.inputCurves, input, false).value);
            var nOut := t.outputChannels as nat;
            Mft1Transform(t, input) == Failure(Mft1ClutIndex) <==>
              exists c: nat :: c < NumCorners(|input|) && CornerIndex(q, c, 0) * nOut + nOut > |t.clut|
  {
    var nOut, grid := t.outputChannels as nat, t.gridPoints as nat;
    var curved := Curve8Stage(t.inputCurves, input, false).value;
    Curve8StageBounded(t.inputCurves, input, false);
    FloorCellsAreCells(grid, curved);
    Mft2CornersInside(grid, curved);
    var q := FloorCells(grid, curved);
    CheckedBlendOutcome(q, t.clut, nOut, NumCorners(|input|));
    var b := Blend(q, t.clut, nOut, true, NumCorners(|input|));
    if b.Success? {
      Curve8Errors(t.outputCurves, b.value, true, |b.value|);
    }
  }

  /** On a grid of two points or more, the lut8 cell of curved values lies inside the grid. */
  lemma Mft1CellInside(grid: nat, curves: seq<seq<byte>>, input: seq<real>)
    requires grid >= 2 && Curve8Stage(curves, input, false).Success?
    ensures FloorCells(grid, Curve8Stage(curves, input, false).value).Inside()
  {
    var curved := Curve8Stage(curves, input, false).value;
    Curve8StageBounded(curves, input, false);
    FloorCellsAreCells(grid, curved);
    Mft2CornersInside(grid, curved);
  }

  /**
   * A table too short for even one node fails with the table error at the
   * first corner, once the input curves succeed (with at most 62 inputs, so
   * that the corner loop runs).
   */
  lemma Mft1ShortTable(t: Mft1Tag, input: seq<real>)
    requires |input| == t.inputChannels as int && t.gridPoints >= 2 && |input| <= 62
    requires Curve8Stage(t.inputCurves, input, false).Success?
    requires |t.clut| < t.outputChannels as int
    ensures Mft1Transform(t, input) == Failure(Mft1ClutIndex)
  {
    var nOut := t.outputChannels as nat;
    var q := FloorCells(t.gridPoints as nat, Curve8Stage(t.inputCurves, input, false).value);
    Mft1CellInside(t.gridPoints as nat, t.inputCurves, input);
    InsideIndex(q, 0, 0);
    var idx := CornerIndex(q, 0, 0);
    NodeFits(idx, idx + 1, nOut);
    assert 0 < NumCorners(|input|);
    assert idx * nOut + nOut > |t.clut|;
    Mft1ClutOutcome(t, input);
  }

  /** The CLUTBoundsError case of the tests: one channel, two grid points, zero curves and an empty table. */
  lemma Mft1ClutBoundsExample()
    ensures var curve := Repeat(0 as byte, 256);
            Mft1Transform(Mft1Tag(1, 1, 2, [], [curve], [], [curve]), [0.5]) == Failure(Mft1ClutIndex)
  {
    var curve := Repeat(0 as byte, 256);
    var t := Mft1Tag(1, 1, 2, [], [curve], [], [curve]);
    Curve8StageSucceeds(t.inputCurves, [0.5], false);
    Mft1ShortTable(t, [0.5]);
  }

  /** A zero lut8 curve maps any single value to 0. */
  lemma ZeroCurve8(vs: seq<real>, output: bool)
    requires |vs| == 1
    ensures Curve8Stage([Repeat(0 as byte, 256)], vs, output) == Success([0.0])
  {
    var curves := [Repeat(0 as byte, 256)];
    Curve8StageSucceeds(curves, vs, output);
    var r := Curve8Stage(curves, vs, output).value;
    assert r == [r[0]];
  }

  /** Three grid points, one channel at 0: corners 0 and 1 read the two-entry table without fault. */
  lemma ThreePointCell()
    ensures FloorCells(3, [0.0]) == Cube([3], [0], [0.0])
    ensures Blend(Cube([3], [0], [0.0]), [0.0, 0.0], 1, true, NumCorners(1)).Success?
  {
    var q := FloorCells(3, [0.0]);
    assert FloorCellOf(0.0, 3) == (0.0, 0) by {
      MulZero(2.0);
    }
    assert q.pos == [0] && q.frac == [0.0];
    assert CornerIndex(q, 0, 0) == 0 && CornerIndex(q, 1, 0) == 1;
    assert NumCorners(1) == 2;
    CheckedBlendOutcome(q, [0.0, 0.0], 1, 2);
    forall c: nat | c < 2
      ensures CornerIndex(q, c, 0) * 1 + 1 <= 2
    {
    }
  }

  /**
   * A table shorter than grid^n·nOut can still answer: with three grid points
   * and a zero input curve, the input's cell reads only nodes 0 and 1, so a
   * two-entry table is enough.
   */
  lemma Mft1PartialTableSucceeds()
    ensures var curve := Repeat(0 as byte, 256);
            var t := Mft1Tag(1, 1, 3, [], [curve], [0.0, 0.0], [curve]);
            && |t.clut| < Span(IntPow(3, 1), 1)
            && Mft1Transform(t, [0.5]) == Success([0.0])
  {
    ZeroCurve8([0.5], false);
    ThreePointCell();
    var b := Blend(Cube([3], [0], [0.0]), [0.0, 0.0], 1, true, NumCorners(1));
    ZeroCurve8(b.value, true);
  }
}
