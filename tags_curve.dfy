/**
 * curveType and parametricCurveType: their decoders and the one-channel
 * transforms a modular tag applies.
 */
module CurveTags {
  import opened Wrappers
  import opened Bytes
  import opened Errors
  import opened FixedFloat
  import opened RealMath
  import opened TagValues

  // ---------------------------------------------------------------- curveType

  /** The `count` big-endian 16-bit curve points that start at byte 12. */
  function PointsAt(raw: seq<byte>, count: nat): (r: seq<u16>)
    requires 12 + 2 * count <= |raw|
    ensures |r| == count
  {
    seq(count, i requires 0 <= i < count => U16(raw, 12 + 2 * i))
  }

  /**
   * curveDecoder: a count of 0 is the identity, 1 is an 8.8 fixed-point
   * gamma, and more is that many sample points.
   */
  function DecodeCurve(raw: seq<byte>): (r: Result<TagValue, Error>)
    ensures |raw| < 12 ==> r == Failure(TooShort("curv"))
    ensures |raw| >= 12 && U32(raw, 8) == 0 ==> r == Success(Curve(CurveTag(CurveIdentity, 0.0, [])))
    ensures |raw| >= 12 && U32(raw, 8) == 1 ==>
              r == if |raw| < 14 then Failure(CurveMissingGamma)
                   else Success(Curve(CurveTag(CurveGamma, U16(raw, 12) as real / 256.0, [])))
    ensures |raw| >= 12 && U32(raw, 8) > 1 && |raw| < 12 + 2 * U32(raw, 8) ==> r == Failure(CurveTruncated)
    ensures r.Success? && U32(raw, 8) > 1 ==>
              && r.value.Curve? && r.value.curve.curveType == CurvePoints && r.value.curve.gamma == 0.0
              && |r.value.curve.points| == U32(raw, 8)
              && forall i :: 0 <= i < U32(raw, 8) ==> r.value.curve.points[i] == U16(raw, 12 + 2 * i)
  {
    if |raw| < 12 then Failure(TooShort("curv"))
    else
      var count := U32(raw, 8);
      if count == 0 then Success(Curve(CurveTag(CurveIdentity, 0.0, [])))
      else if count == 1 then
        if |raw| < 14 then Failure(CurveMissingGamma)
        else Success(Curve(CurveTag(CurveGamma, U16(raw, 12) as real / 256.0, [])))
      else if |raw| < 12 + 2 * count then Failure(CurveTruncated)
      else Success(Curve(CurveTag(CurvePoints, 0.0, PointsAt(raw, count))))
  }

  /** curveDecoder with the source's loop filling a preallocated array of points. */
  method CurveDecoder(raw: seq<byte>) returns (r: Result<TagValue, Error>)
    ensures r == DecodeCurve(raw)
  {
    if |raw| < 12 {
      return Failure(TooShort("curv"));
    }
    var count: nat := U32(raw, 8);
    if count == 0 {
      return Success(Curve(CurveTag(CurveIdentity, 0.0, [])));
    }
    if count == 1 {
      if |raw| < 14 {
        return Failure(CurveMissingGamma);
      }
      var gammaRaw := U16(raw, 12);
      return Success(Curve(CurveTag(CurveGamma, gammaRaw as real / 256.0, [])));
    }
    if |raw| < 12 + count * 2 {
      return Failure(CurveTruncated);
    }
    var points := new u16[count];
    for i := 0 to count
      invariant forall k :: 0 <= k < i ==> points[k] == U16(raw, 12 + 2 * k)
    {
      points[i] := U16(raw, 12 + i * 2);
    }
    assert points[..] == PointsAt(raw, count);
    r := Success(Curve(CurveTag(CurvePoints, 0.0, points[..])));
  }

  /** A points curve written out: type header, count, then the points. */
  function EncodePointsCurve(header: seq<byte>, points: seq<u16>): seq<byte>
    requires |header| == 8 && |points| < 0x1_0000_0000
  {
    header + BytesOfU32(|points|) + BytesOfU16s(points)
  }

  /** Decoding a written points curve of two or more points gives back exactly those points. */
  lemma PointsCurveRoundTrip(header: seq<byte>, points: seq<u16>)
    requires |header| == 8 && 2 <= |points| < 0x1_0000_0000
    ensures DecodeCurve(EncodePointsCurve(header, points)) == Success(Curve(CurveTag(CurvePoints, 0.0, points)))
  {
    var raw := EncodePointsCurve(header, points);
    var n := |points|;
    var units := BytesOfU16s(points);
    DropAppend(raw, 0, header + BytesOfU32(n), units);
    assert raw[8..12] == BytesOfU32(n);
    U32At(raw, 8, n);
    forall i | 0 <= i < n
      ensures PointsAt(raw, n)[i] == points[i]
    {
      U16sOfBytes(points, i);
      assert raw[12 + 2 * i] == units[2 * i] && raw[13 + 2 * i] == units[2 * i + 1];
    }
    assert PointsAt(raw, n) == points;
  }

  // ---------------------------------------------------------------- parametricCurveType

  /** The number of parameters of function types 0 to 4; any other type is unknown. */
  function ParameterCount(functionType: u16): (r: Option<nat>)
    ensures r.Some? <==> functionType <= 4
    ensures r.Some? ==> r.value in {1, 3, 4, 5, 7}
  {
    match functionType
    case 0 => Some(1)
    case 1 => Some(3)
    case 2 => Some(4)
    case 3 => Some(5)
    case 4 => Some(7)
    case _ => None
  }

  /** The `count` s15Fixed16 parameters that start at byte 10. */
  function ParametersAt(raw: seq<byte>, count: nat): (r: seq<real>)
    requires 10 + 4 * count <= |raw|
    ensures |r| == count
  {
    seq(count, i requires 0 <= i < count => S15At(raw, 10 + 4 * i))
  }

  /**
   * parametricCurveDecoder: the function type is the 16-bit value at 8 and
   * its parameters follow straight after it, from byte 10.
   */
  function DecodeParametricCurve(raw: seq<byte>): (r: Result<TagValue, Error>)
    ensures |raw| < 12 ==> r == Failure(TooShort("para"))
    ensures |raw| >= 12 && U16(raw, 8) > 4 ==> r == Failure(ParaUnknownFunction(U16(raw, 8)))
    ensures r.Success? <==>
              |raw| >= 12 && U16(raw, 8) <= 4 && 10 + 4 * ParameterCount(U16(raw, 8)).value <= |raw|
    ensures r.Success? ==>
              && r.value.ParaCurve?
              && r.value.para.functionType == U16(raw, 8)
              && |r.value.para.parameters| == ParameterCount(U16(raw, 8)).value
              && forall i :: 0 <= i < |r.value.para.parameters| ==> r.value.para.parameters[i] == S15At(raw, 10 + 4 * i)
    ensures r.Failure? ==> r.error == TooShort("para") || r.error.ParaUnknownFunction? || r.error == ParaTruncated
  {
    if |raw| < 12 then Failure(TooShort("para"))
    else
      var funcType := U16(raw, 8);
      match ParameterCount(funcType)
      case None => Failure(ParaUnknownFunction(funcType))
      case Some(expected) =>
        if |raw| < 10 + expected * 4 then Failure(ParaTruncated)
        else Success(ParaCurve(ParametricCurveTag(funcType, ParametersAt(raw, expected))))
  }

  /** parametricCurveDecoder with the source's loop, advancing an offset four bytes per parameter. */
  method ParametricCurveDecoder(raw: seq<byte>) returns (r: Result<TagValue, Error>)
    ensures r == DecodeParametricCurve(raw)
  {
    if |raw| < 12 {
      return Failure(TooShort("para"));
    }
    var funcType := U16(raw, 8);
    var count := ParameterCount(funcType);
    if count.None? {
      return Failure(ParaUnknownFunction(funcType));
    }
    var expected := count.value;
    var offset := 10;
    if |raw| < offset + expected * 4 {
      return Failure(ParaTruncated);
    }
    var params := new real[expected];
    for i := 0 to expected
      invariant offset == 10 + 4 * i
      invariant forall k :: 0 <= k < i ==> params[k] == S15At(raw, 10 + 4 * k)
    {
      params[i] := S15At(raw, offset);
      offset := offset + 4;
    }
    assert params[..] == ParametersAt(raw, expected);
    r := Success(ParaCurve(ParametricCurveTag(funcType, params[..])));
  }

  // ---------------------------------------------------------------- transforms

  /** The table entry k of a points curve, scaled to [0, 1]. */
  function PointValue(points: seq<u16>, k: int): (r: real)
    requires 0 <= k < |points|
    ensures 0.0 <= r <= 1.0
  {
    points[k] as real / 65535.0
  }

  /** The point a fraction p of the way from vlo to vhi: vlo + p·(vhi - vlo). */
  function Lerp(vlo: real, vhi: real, p: real): real {
    vlo + Mul(p, vhi - vlo)
  }

  /**
   * The points-curve lookup at table position idx: idx rounded down and up
   * gives two indices that the source does not check; between them the value
   * is interpolated linearly.
   */
  function PointsLookup(points: seq<u16>, idx: real): (r: Result<real, Error>)
    ensures r.Failure? ==> r.error == Panic(CurvePointIndex)
  {
    var n := |points|;
    var lo, hi := Floor(idx), Ceil(idx);
    if lo == hi then
      if 0 <= lo < n then Success(PointValue(points, lo))
      else Failure(Panic(CurvePointIndex))
    else if 0 <= lo < n && 0 <= hi < n then
      var p := idx - lo as real;
      var vlo, vhi := PointValue(points, lo), PointValue(points, hi);
      Success(Lerp(vlo, vhi, p))
    else Failure(Panic(CurvePointIndex))
  }

  /** Where an input v falls in a table of n entries: v·(n-1). */
  function Position(v: real, n: nat): real {
    v * (n - 1) as real
  }

  /**
   * CurveTag.Transform on one channel.  A points curve looks its input up at
   * position v·(n-1).
   */
  function CurveTransform(c: CurveTag, input: seq<real>, pow: PowFn): (r: Result<seq<real>, Error>)
    ensures |input| != 1 ==> r == Failure(ChannelCount(1, |input|))
    ensures |input| == 1 && c.curveType == CurveIdentity ==> r == Success(input)
    ensures |input| == 1 && c.curveType == CurveGamma ==> r == Success([pow(input[0], c.gamma)])
    ensures |input| == 1 && c.curveType == CurvePoints && c.points == [] ==> r == Failure(CurveNoPoints)
    ensures |input| == 1 && c.curveType > CurvePoints ==> r == Failure(CurveUnknownType)
    ensures |input| == 1 && c.curveType == CurvePoints && c.points != [] ==>
              var y := PointsLookup(c.points, Position(input[0], |c.points|));
              && (r.Success? <==> y.Success?)
              && (r.Success? ==> r.value == [y.value])
              && (r.Failure? ==> r.error == Panic(CurvePointIndex))
    ensures r.Success? ==> |r.value| == 1
  {
    if |input| != 1 then Failure(ChannelCount(1, |input|))
    else
      var v := input[0];
      if c.curveType == CurveIdentity then assert [v] == input; Success([v])
      else if c.curveType == CurveGamma then Success([pow(v, c.gamma)])
      else if c.curveType == CurvePoints then
        var n := |c.points|;
        if n == 0 then Failure(CurveNoPoints)
        else
          var y :- PointsLookup(c.points, Position(v, n));
          Success([y])
      else Failure(CurveUnknownType)
  }

  /** A position that falls on table entry k returns that entry. */
  lemma LookupAtPoint(points: seq<u16>, k: int)
    requires 0 <= k < |points|
    ensures PointsLookup(points, k as real) == Success(PointValue(points, k))
  {
    assert Floor(k as real) == k && Ceil(k as real) == k;
  }

  /**
   * A position strictly between entries k and k+1 interpolates linearly
   * between them, by its distance from k.
   */
  lemma LookupBetweenPoints(points: seq<u16>, idx: real, k: int)
    requires 0 <= k && k + 1 < |points| && k as real < idx < (k + 1) as real
    ensures var p := idx - k as real;
            var vlo, vhi := PointValue(points, k), PointValue(points, k + 1);
            PointsLookup(points, idx) == Success(Lerp(vlo, vhi, p))
  {
    assert Floor(idx) == k;
    assert Ceil(idx) == k + 1;
  }

  /** A position inside the table is looked up without fault, and gives a value in [0, 1]. */
  lemma LookupInRange(points: seq<u16>, idx: real)
    requires 0.0 <= idx <= (|points| - 1) as real
    ensures var r := PointsLookup(points, idx);
            r.Success? && 0.0 <= r.value <= 1.0
  {
    var lo, hi := Floor(idx), Ceil(idx);
    FloorCeil(idx);
    if lo != hi {
      var p := idx - lo as real;
      var vlo, vhi := PointValue(points, lo), PointValue(points, hi);
      assert 0.0 < p < 1.0;
      Between(vlo, vhi, p);
    }
  }

  /** Whatever a lookup returns lies in [0, 1]: both entries it reads are table entries. */
  lemma LookupBounded(points: seq<u16>, idx: real)
    requires PointsLookup(points, idx).Success?
    ensures 0.0 <= PointsLookup(points, idx).value <= 1.0
  {
    var lo, hi := Floor(idx), Ceil(idx);
    FloorCeil(idx);
    if lo != hi {
      var p := idx - lo as real;
      assert 0.0 < p < 1.0;
      Between(PointValue(points, lo), PointValue(points, hi), p);
    }
  }

  /** A point on the segment between two values in [0, 1] lies in [0, 1]. */
  lemma Between(vlo: real, vhi: real, p: real)
    requires 0.0 <= vlo <= 1.0 && 0.0 <= vhi <= 1.0 && 0.0 <= p <= 1.0
    ensures 0.0 <= Lerp(vlo, vhi, p) <= 1.0
  {
    if vlo <= vhi {
      ScaleUp(p, vhi - vlo);
    } else {
      ScaleDown(p, vhi - vlo);
    }
  }

  /** A position before the first entry, off the integers, reads an index the table does not have. */
  lemma LookupBelowRange(points: seq<u16>, idx: real)
    requires idx < 0.0 && idx != Floor(idx) as real
    ensures PointsLookup(points, idx) == Failure(Panic(CurvePointIndex))
  {
    FloorCeil(idx);
  }

  /** An input in [0, 1] is a position inside the table. */
  lemma PositionInRange(v: real, n: nat)
    requires n > 0 && 0.0 <= v <= 1.0
    ensures 0.0 <= Position(v, n) <= (n - 1) as real
  {
    assert v * (n - 1) as real <= 1.0 * (n - 1) as real;
  }

  /**
   * A points curve on an input in [0, 1] never reaches past its table, and
   * its output lies in [0, 1] too: the source's unchecked indexing is safe
   * exactly on the range its callers keep to.
   */
  lemma CurveInRange(points: seq<u16>, v: real, pow: PowFn)
    requires |points| > 0 && 0.0 <= v <= 1.0
    ensures var r := CurveTransform(CurveTag(CurvePoints, 0.0, points), [v], pow);
            r.Success? && 0.0 <= r.value[0] <= 1.0
  {
    var idx := Position(v, |points|);
    PositionInRange(v, |points|);
    LookupInRange(points, idx);
  }

  /**
   * A points curve whose input lands exactly on table entry k, v·(n-1) = k,
   * returns that entry over 65535.
   */
  lemma CurveAtEntry(points: seq<u16>, v: real, k: int, pow: PowFn)
    requires 0 <= k < |points| && Position(v, |points|) == k as real
    ensures CurveTransform(CurveTag(CurvePoints, 0.0, points), [v], pow) == Success([PointValue(points, k)])
  {
    LookupAtPoint(points, k);
  }

  /**
   * A points curve whose input lands strictly between entries k and k+1
   * interpolates linearly between them.
   */
  lemma CurveBetweenEntries(points: seq<u16>, v: real, k: int, pow: PowFn)
    requires 0 <= k && k + 1 < |points|
    requires k as real < Position(v, |points|) < (k + 1) as real
    ensures var p := Position(v, |points|) - k as real;
            CurveTransform(CurveTag(CurvePoints, 0.0, points), [v], pow) ==
              Success([Lerp(PointValue(points, k), PointValue(points, k + 1), p)])
  {
    LookupBetweenPoints(points, Position(v, |points|), k);
  }

  /**
   * The comparison `x >= -b/a` on float64.  With a = 0 (a decoded zero is
   * +0) the quotient is -Inf for b > 0, +Inf for b < 0 and NaN for b = 0, so
   * only b > 0 passes.
   */
  predicate AtOrAbove(x: real, a: real, b: real) {
    if a != 0.0 then x >= -b / a else b > 0.0
  }

  /** The affine term a·x + b that every parametric function is built from. */
  function Affine(a: real, x: real, b: real): real {
    a * x + b
  }

  /**
   * ParametricCurveTag.Transform on one channel: the parameter count must be
   * the function's before anything is evaluated.
   */
  function ParametricTransform(p: ParametricCurveTag, input: seq<real>, pow: PowFn): (r: Result<seq<real>, Error>)
    ensures |input| != 1 ==> r == Failure(ChannelCount(1, |input|))
    ensures |input| == 1 && p.functionType > 4 ==> r == Failure(ParaUnknownFunction(p.functionType))
    ensures |input| == 1 && p.functionType <= 4 && |p.parameters| != ParameterCount(p.functionType).value ==>
              r == Failure(ParaParameterCount)
    ensures r.Success? <==>
              |input| == 1 && p.functionType <= 4 && |p.parameters| == ParameterCount(p.functionType).value
    ensures r.Success? ==> |r.value| == 1
  {
    if |input| != 1 then Failure(ChannelCount(1, |input|))
    else
      var x := input[0];
      var ps := p.parameters;
      match p.functionType
      case 0 =>
        if |ps| != 1 then Failure(ParaParameterCount)
        else Success([pow(x, ps[0])])
      case 1 =>
        if |ps| != 3 then Failure(ParaParameterCount)
        else
          var a, b, g := ps[0], ps[1], ps[2];
          Success([if AtOrAbove(x, a, b) then pow(Affine(a, x, b), g) else 0.0])
      case 2 =>
        if |ps| != 4 then Failure(ParaParameterCount)
        else
          var a, b, g, c := ps[0], ps[1], ps[2], ps[3];
          Success([if AtOrAbove(x, a, b) then pow(Affine(a, x, b), g) + c else c])
      case 3 =>
        if |ps| != 5 then Failure(ParaParameterCount)
        else
          var a, b, g, c, d := ps[0], ps[1], ps[2], ps[3], ps[4];
          Success([if x >= d then pow(Affine(a, x, b), g) else Affine(c, x, 0.0)])
      case 4 =>
        if |ps| != 7 then Failure(ParaParameterCount)
        else
          var a, b, g, c, d, e, f := ps[0], ps[1], ps[2], ps[3], ps[4], ps[5], ps[6];
          Success([if x >= d then pow(Affine(a, x, b), g) + e else Affine(c, x, f)])
      case _ => Failure(ParaUnknownFunction(p.functionType))
  }

  /** Function 0 is the plain power x^g. */
  lemma SimpleGamma(g: real, x: real, pow: PowFn)
    ensures ParametricTransform(ParametricCurveTag(0, [g]), [x], pow) == Success([pow(x, g)])
  {
  }

  /**
   * Function 2 is function 1 shifted by c on both branches: 0 + c below the
   * threshold, (ax+b)^g + c from it on.
   */
  lemma ConditionalCShiftsZero(a: real, b: real, g: real, c: real, x: real, pow: PowFn)
    ensures var one := ParametricTransform(ParametricCurveTag(1, [a, b, g]), [x], pow);
            var two := ParametricTransform(ParametricCurveTag(2, [a, b, g, c]), [x], pow);
            one.Success? && two.Success? && two.value[0] == one.value[0] + c
  {
  }

  /** Functions 1 and 2 take the power branch exactly when x >= -b/a. */
  lemma ConditionalBranch(a: real, b: real, g: real, x: real, pow: PowFn)
    ensures ParametricTransform(ParametricCurveTag(1, [a, b, g]), [x], pow) ==
              Success([if AtOrAbove(x, a, b) then pow(a * x + b, g) else 0.0])
    ensures !AtOrAbove(x, a, b) ==> forall pow2: PowFn ::
              ParametricTransform(ParametricCurveTag(1, [a, b, g]), [x], pow2) == Success([0.0])
  {
  }

  /**
   * Function 4 with e = f = 0 is function 3: the split at d is the same and
   * only the constant terms differ.
   */
  lemma ComplexExtendsSplit(a: real, b: real, g: real, c: real, d: real, x: real, pow: PowFn)
    ensures ParametricTransform(ParametricCurveTag(4, [a, b, g, c, d, 0.0, 0.0]), [x], pow) ==
              ParametricTransform(ParametricCurveTag(3, [a, b, g, c, d]), [x], pow)
  {
  }

  /** Below d, functions 3 and 4 are linear in x and never raise to a power. */
  lemma SplitBelowIsLinear(a: real, b: real, g: real, c: real, d: real, e: real, f: real, x: real, pow: PowFn)
    requires x < d
    ensures ParametricTransform(ParametricCurveTag(3, [a, b, g, c, d]), [x], pow) == Success([c * x])
    ensures ParametricTransform(ParametricCurveTag(4, [a, b, g, c, d, e, f]), [x], pow) == Success([c * x + f])
  {
    assert [a, b, g, c, d][3] == c && [a, b, g, c, d, e, f][3] == c;
    assert Affine(c, x, 0.0) == c * x;
    assert Affine(c, x, f) == c * x + f;
  }

  /** From d on, function 3 is (a·x+b)^g and function 4 is (a·x+b)^g + e. */
  lemma SplitAtOrAboveIsPower(a: real, b: real, g: real, c: real, d: real, e: real, f: real, x: real, pow: PowFn)
    requires x >= d
    ensures ParametricTransform(ParametricCurveTag(3, [a, b, g, c, d]), [x], pow) == Success([pow(a * x + b, g)])
    ensures ParametricTransform(ParametricCurveTag(4, [a, b, g, c, d, e, f]), [x], pow) == Success([pow(a * x + b, g) + e])
  {
    assert [a, b, g, c, d][4] == d && [a, b, g, c, d, e, f][4] == d;
    assert [a, b, g, c, d, e, f][5] == e;
    assert Affine(a, x, b) == a * x + b;
  }
}
