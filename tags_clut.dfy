/**
 * The code's own colour lookup table tag: input and output channel counts at
 * bytes 8 and 9, one grid-point count per input channel from byte 10, then
 * the table of 16-bit entries, output channels varying fastest.
 */
module ClutTags {
  import opened Wrappers
  import opened Bytes
  import opened Errors
  import opened RealMath
  import opened Interp
  import opened TagValues

  /** The grid counts as integers. */
  function GridCounts(g: seq<byte>): (r: seq<int>)
    ensures |r| == |g| && forall i :: 0 <= i < |g| ==> r[i] == g[i] as int
  {
    seq(|g|, i requires 0 <= i < |g| => g[i] as int)
  }

  /** The number of grid nodes: the product of the grid counts. */
  function GridProduct(g: seq<byte>): int {
    Stride(GridCounts(g), 0)
  }

  /** expectedValues: the number of table entries, grid nodes times output channels. */
  function ExpectedValues(g: seq<byte>, outputChannels: int): int {
    GridProduct(g) * outputChannels
  }

  /** The product loop, first grid count first. */
  method CountNodes(g: seq<byte>) returns (n: int)
    ensures n == GridProduct(g)
  {
    var counts := GridCounts(g);
    n := 1;
    for i := 0 to |g|
      invariant n * Stride(counts, i) == Stride(counts, 0)
    {
      var s := Stride(counts, i + 1);
      assert n * s * counts[i] == n * (s * counts[i]);
      n := n * (g[i] as int);
    }
  }

  /** expectedValues with the source's loop. */
  method CountExpectedValues(g: seq<byte>, outputChannels: int) returns (n: int)
    ensures n == ExpectedValues(g, outputChannels)
  {
    n := CountNodes(g);
    n := n * outputChannels;
  }

  /** The table entries: count 16-bit values from byte `at`, each divided by 65535. */
  function EntriesAt(raw: seq<byte>, at: nat, count: nat): (r: seq<real>)
    requires at + 2 * count <= |raw|
    ensures |r| == count
  {
    seq(count, i requires 0 <= i < count => U16(raw, at + 2 * i) as real / 65535.0)
  }

  /**
   * clutDecoder: at least 16 bytes; the grid counts must lie inside the block
   * (the source slices without checking); the rest is the table, an even
   * number of bytes, exactly two per entry.
   */
  function DecodeClut(raw: seq<byte>): (r: Result<TagValue, Error>)
    ensures |raw| < 16 ==> r == Failure(TooShort("clut"))
    ensures |raw| >= 16 && 10 + raw[8] as int > |raw| ==> r == Failure(Panic(ClutGridPastEnd))
    ensures |raw| >= 16 && 10 + raw[8] as int <= |raw| && (|raw| - 10 - raw[8]) % 2 != 0 ==> r == Failure(ClutOddBody)
    ensures r.Success? <==>
              |raw| >= 16 && 10 + raw[8] as int <= |raw| &&
              |raw| - 10 - raw[8] == 2 * ExpectedValues(raw[10..10 + raw[8] as int], raw[9])
    ensures r.Success? ==>
              && r.value.Clut?
              && var t := r.value.clut;
              && t.inputChannels == raw[8] && t.outputChannels == raw[9]
              && t.gridPoints == raw[10..10 + raw[8] as int]
              && |t.values| == ExpectedValues(t.gridPoints, t.outputChannels)
              && t.values == EntriesAt(raw, 10 + raw[8] as int, |t.values|)
              && t.expectedValues == ExpectedValues(t.gridPoints, t.outputChannels)
  {
    if |raw| < 16 then Failure(TooShort("clut"))
    else
      var inputCh, outputCh := raw[8] as int, raw[9] as int;
      if 10 + inputCh > |raw| then Failure(Panic(ClutGridPastEnd))
      else
        var gridPoints := raw[10..10 + inputCh];
        var bodyLength := |raw| - (10 + inputCh);
        if bodyLength % 2 != 0 then Failure(ClutOddBody)
        else if bodyLength != ExpectedValues(gridPoints, outputCh) * 2 then Failure(ClutBodyLength)
        else
          var values := EntriesAt(raw, 10 + inputCh, bodyLength / 2);
          Success(Clut(ClutTag(gridPoints, inputCh, outputCh, values, ExpectedValues(gridPoints, outputCh))))
  }

  /** clutDecoder with the source's loops: the size product, then one entry per two bytes of the body. */
  method ClutDecoder(raw: seq<byte>) returns (r: Result<TagValue, Error>)
    ensures r == DecodeClut(raw)
  {
    if |raw| < 16 {
      return Failure(TooShort("clut"));
    }
    var inputCh := raw[8] as int;
    var outputCh := raw[9] as int;
    if 10 + inputCh > |raw| {
      return Failure(Panic(ClutGridPastEnd));
    }
    var gridPoints := raw[10..10 + inputCh];
    var body := raw[10 + inputCh..];
    if |body| % 2 != 0 {
      return Failure(ClutOddBody);
    }
    var expected := CountNodes(gridPoints);
    expected := expected * (outputCh * 2);
    if |body| != expected {
      return Failure(ClutBodyLength);
    }
    var values := ReadEntries(raw, 10 + inputCh, |body| / 2);
    var ev := CountExpectedValues(gridPoints, outputCh);
    return Success(Clut(ClutTag(gridPoints, inputCh, outputCh, values, ev)));
  }

  /** The entry loop: one entry per two bytes, from byte `at` on. */
  method ReadEntries(raw: seq<byte>, at: nat, count: nat) returns (values: seq<real>)
    requires at + 2 * count <= |raw|
    ensures values == EntriesAt(raw, at, count)
  {
    var body := raw[at..at + 2 * count];
    values := [];
    var i := 0;
    while i < |body|
      invariant 0 <= i <= |body| && i % 2 == 0
      invariant values == EntriesAt(raw, at, i / 2)
    {
      U16OfSlice(raw, at, body, i);
      values := values + [U16(body, i) as real / 65535.0];
      i := i + 2;
    }
  }

  // ---------------------------------------------------------------- the size cache

  /** expected(): the cached size, computed when the cache holds 0. */
  function ExpectedOf(c: ClutTag): int {
    if c.expectedValues == 0 then ExpectedValues(c.gridPoints, c.outputChannels) else c.expectedValues
  }

  /**
   * expected() on the tag's cache field: fills an empty (zero) cache and
   * returns the cached size; a filled cache is returned as it is.
   */
  method Expected(c: ClutTag) returns (n: int, c': ClutTag)
    ensures n == ExpectedOf(c)
    ensures c.expectedValues == 0 ==> c' == c.(expectedValues := n)
    ensures c.expectedValues != 0 ==> c' == c
  {
    c' := c;
    if c.expectedValues == 0 {
      var e := CountExpectedValues(c.gridPoints, c.outputChannels as int);
      c' := c.(expectedValues := e);
    }
    n := c'.expectedValues;
  }

  /**
   * The cache is a memo: once expected() has run, running it again gives the
   * same size and leaves the tag as it is; and a decoded tag's cache already
   * holds the true size.
   */
  lemma ExpectedMemo(c: ClutTag)
    ensures ExpectedOf(c.(expectedValues := ExpectedOf(c))) == ExpectedOf(c)
    ensures c.expectedValues == 0 || c.expectedValues == ExpectedValues(c.gridPoints, c.outputChannels) ==>
              ExpectedOf(c) == ExpectedValues(c.gridPoints, c.outputChannels)
  {
  }

  // ---------------------------------------------------------------- lookup

  /** clamp01 */
  function Clamp01(v: real): (r: real)
    ensures 0.0 <= r <= 1.0
    ensures 0.0 <= v <= 1.0 ==> r == v
    ensures v < 0.0 ==> r == 0.0
    ensures v > 1.0 ==> r == 1.0
  {
    if v < 0.0 then 0.0 else if v > 1.0 then 1.0 else v
  }

  /** Every input clamped to [0, 1]. */
  function Clamped(input: seq<real>): (r: seq<real>)
    ensures |r| == |input| && forall i :: 0 <= i < |input| ==> r[i] == Clamp01(input[i])
  {
    seq(|input|, i requires 0 <= i < |input| => Clamp01(input[i]))
  }

  /**
   * The grid square of a value v on n points: the integer part of v·(n-1),
   * held below n-1 so that an upper neighbour exists, and the fraction past it
   * (1 at the upper edge).
   */
  function CellOf(v: real, n: int): (real, int) {
    var pos := Mul(v, (n - 1) as real);
    var p := Trunc(pos);
    if p >= n - 1 then (1.0, n - 2) else (pos - p as real, p)
  }

  /** The cell of each input. */
  function Cells(grid: seq<int>, vs: seq<real>): (q: Cube)
    requires |grid| == |vs|
    ensures q.Shaped() && q.grid == grid
    ensures forall i :: 0 <= i < |vs| ==> (q.frac[i], q.pos[i]) == CellOf(vs[i], grid[i])
  {
    Cube(grid,
         seq(|vs|, i requires 0 <= i < |vs| => CellOf(vs[i], grid[i]).1),
         seq(|vs|, i requires 0 <= i < |vs| => CellOf(vs[i], grid[i]).0))
  }

  /**
   * A value in [0, 1] on at least two points falls in a square with an upper
   * neighbour, at a fraction in [0, 1]; 0 is the first point and 1 the far
   * edge of the last square.
   */
  lemma CellInside(v: real, n: int)
    requires 0.0 <= v <= 1.0 && n >= 2
    ensures 0 <= CellOf(v, n).1 <= n - 2
    ensures 0.0 <= CellOf(v, n).0 <= 1.0
    ensures v == 0.0 ==> CellOf(v, n) == (0.0, 0)
    ensures v == 1.0 ==> CellOf(v, n) == (1.0, n - 2)
  {
    var d := (n - 1) as real;
    ScaleUp(v, d);
    if v == 0.0 {
      MulZero(d);
    }
    if v == 1.0 {
      MulOne(d);
    }
  }

  /** Inputs in [0, 1] over grids of at least two points give a cell inside the grid. */
  lemma CellsInside(grid: seq<int>, vs: seq<real>)
    requires |grid| == |vs|
    requires forall i :: 0 <= i < |vs| ==> 0.0 <= vs[i] <= 1.0 && grid[i] >= 2
    ensures Cells(grid, vs).Inside()
  {
    forall i | 0 <= i < |vs| {
      CellInside(vs[i], grid[i]);
    }
  }

  /** The first channel from i on whose grid has fewer than two points. */
  function FirstSparse(g: seq<byte>, i: nat): (r: Option<nat>)
    requires i <= |g|
    ensures r.None? <==> forall j :: i <= j < |g| ==> g[j] >= 2
    ensures r.Some? ==> i <= r.value < |g| && g[r.value] < 2 && forall j :: i <= j < r.value ==> g[j] >= 2
    decreases |g| - i
  {
    if i == |g| then None else if g[i] < 2 then Some(i) else FirstSparse(g, i + 1)
  }

  function ClutFault(f: Fault): Error {
    match f
    case OutsideGrid(d) => ClutGridIndex(d)
    case PastValues => ClutValueOutOfRange
    case BadIndex => Panic(ClutValueIndex)
  }

  /** triLinearInterpolate over the tag's own grid and table, every corner checked. */
  function TriLinear(c: ClutTag, q: Cube): (r: Result<seq<real>, Error>)
    requires q.Shaped() && |q.grid| == c.inputChannels as int
    ensures r.Success? ==> |r.value| == c.outputChannels as int
  {
    Blend(q, c.values, c.outputChannels as nat, true, NumCorners(c.inputChannels as nat)).MapError(ClutFault)
  }

  /** triLinearInterpolate with the source's loops. */
  method TriLinearInterpolate(c: ClutTag, q: Cube) returns (r: Result<seq<real>, Error>)
    requires q.Shaped() && |q.grid| == c.inputChannels as int
    ensures r == TriLinear(c, q)
  {
    var out := Interpolate(q, c.values, c.outputChannels as nat, true);
    r := out.MapError(ClutFault);
  }

  /**
   * Lookup: the input and grid arities must match the input channels and
   * every grid needs two points; the clamped inputs then select the cell
   * that is interpolated.
   */
  function Lookup(c: ClutTag, input: seq<real>): (r: Result<seq<real>, Error>)
    ensures |input| != c.inputChannels as int ==> r == Failure(ChannelCount(c.inputChannels as nat, |input|))
    ensures |input| == c.inputChannels as int && |c.gridPoints| != |input| ==> r == Failure(ClutGridMismatch)
    ensures |input| == c.inputChannels as int == |c.gridPoints| && FirstSparse(c.gridPoints, 0).Some? ==>
              r == Failure(ClutTooFewGridPoints(FirstSparse(c.gridPoints, 0).value))
    ensures r.Success? ==> |r.value| == c.outputChannels as int
  {
    if |input| != c.inputChannels as int then Failure(ChannelCount(c.inputChannels as nat, |input|))
    else if |c.gridPoints| != c.inputChannels as int then Failure(ClutGridMismatch)
    else
      match FirstSparse(c.gridPoints, 0)
      case Some(i) => Failure(ClutTooFewGridPoints(i))
      case None => TriLinear(c, Cells(GridCounts(c.gridPoints), Clamped(input)))
  }

  /** The clamping loop. */
  method ClampAll(input: seq<real>) returns (clamped: array<real>)
    ensures fresh(clamped) && clamped[..] == Clamped(input)
  {
    clamped := new real[|input|];
    for i := 0 to |input|
      invariant forall k :: 0 <= k < i ==> clamped[k] == Clamp01(input[k])
    {
      clamped[i] := Clamp01(input[i]);
    }
  }

  /**
   * The loop filling gridPos and gridFrac: it stops at the first channel whose
   * grid has fewer than two points.
   */
  method GridCells(g: seq<byte>, vs: seq<real>) returns (r: Result<Cube, nat>)
    requires |g| == |vs|
    ensures FirstSparse(g, 0).Some? ==> r == Failure(FirstSparse(g, 0).value)
    ensures FirstSparse(g, 0).None? ==> r == Success(Cells(GridCounts(g), vs))
  {
    var n := |vs|;
    var gridPos := new int[n];
    var gridFrac := new real[n];
    for i := 0 to n
      invariant forall k :: 0 <= k < i ==> g[k] >= 2
      invariant forall k :: 0 <= k < i ==> (gridFrac[k], gridPos[k]) == CellOf(vs[k], g[k])
    {
      var nPoints := g[i] as int;
      if nPoints < 2 {
        return Failure(i);
      }
      var cell := CellOf(vs[i], nPoints);
      gridPos[i] := cell.1;
      gridFrac[i] := cell.0;
    }
    ghost var q := Cells(GridCounts(g), vs);
    assert gridPos[..] == q.pos && gridFrac[..] == q.frac;
    r := Success(Cube(GridCounts(g), gridPos[..], gridFrac[..]));
  }

  /** Lookup with the source's loops filling the clamped inputs, the grid positions and the fractions. */
  method LookupCells(c: ClutTag, input: seq<real>) returns (r: Result<seq<real>, Error>)
    ensures r == Lookup(c, input)
  {
    if |input| != c.inputChannels as int {
      return Failure(ChannelCount(c.inputChannels as nat, |input|));
    }
    if |c.gridPoints| != c.inputChannels as int {
      return Failure(ClutGridMismatch);
    }
    var clamped := ClampAll(input);
    var cells := GridCells(c.gridPoints, clamped[..]);
    if cells.Failure? {
      return Failure(ClutTooFewGridPoints(cells.error));
    }
    r := TriLinearInterpolate(c, cells.value);
  }

  /** Transform: the arity, then enough table entries for the cached size, then Lookup. */
  function ClutTransform(c: ClutTag, input: seq<real>): (r: Result<seq<real>, Error>)
    ensures |input| != c.inputChannels as int ==> r == Failure(ChannelCount(c.inputChannels as nat, |input|))
    ensures |input| == c.inputChannels as int && |c.values| < ExpectedOf(c) ==> r == Failure(ClutMissingValues)
    ensures |input| == c.inputChannels as int && |c.values| >= ExpectedOf(c) ==> r == Lookup(c, input)
  {
    if |input| != c.inputChannels as int then Failure(ChannelCount(c.inputChannels as nat, |input|))
    else if |c.values| < ExpectedOf(c) then Failure(ClutMissingValues)
    else Lookup(c, input)
  }

  /** Transform on the tag value, whose size cache the call may fill. */
  method ClutTransformer(c: ClutTag, input: seq<real>) returns (r: Result<seq<real>, Error>, c': ClutTag)
    ensures r == ClutTransform(c, input)
    ensures c' == c || (c.expectedValues == 0 && c' == c.(expectedValues := ExpectedOf(c)))
  {
    c' := c;
    if |input| != c.inputChannels as int {
      return Failure(ChannelCount(c.inputChannels as nat, |input|)), c';
    }
    var expected;
    expected, c' := Expected(c);
    if |c.values| < expected {
      return Failure(ClutMissingValues), c';
    }
    r := LookupCells(c', input);
    assert Lookup(c', input) == Lookup(c, input);
  }

  // ---------------------------------------------------------------- properties

  /** A table the decoder could produce: one grid count per input, every grid with two points, and the full table. */
  predicate Complete(c: ClutTag) {
    && |c.gridPoints| == c.inputChannels as int <= 62
    && (forall i :: 0 <= i < |c.gridPoints| ==> c.gridPoints[i] >= 2)
    && |c.values| >= ExpectedValues(c.gridPoints, c.outputChannels as int)
  }

  /** The cell of a lookup of a complete table lies inside its grid. */
  lemma LookupCube(c: ClutTag, input: seq<real>)
    requires Complete(c) && |input| == c.inputChannels as int
    ensures var q := Cells(GridCounts(c.gridPoints), Clamped(input));
            q.Inside() && Lookup(c, input) == TriLinear(c, q)
  {
    CellsInside(GridCounts(c.gridPoints), Clamped(input));
  }

  /**
   * A complete table answers every input of the right arity: the corner
   * index never leaves the grid and never passes the table.
   */
  lemma LookupSucceeds(c: ClutTag, input: seq<real>)
    requires Complete(c) && |input| == c.inputChannels as int
    ensures Lookup(c, input).Success?
    ensures |Lookup(c, input).value| == c.outputChannels as int
  {
    LookupCube(c, input);
    var q := Cells(GridCounts(c.gridPoints), Clamped(input));
    InsideBlend(q, c.values, c.outputChannels as nat, true, NumCorners(c.inputChannels as nat));
  }

  /** An input of all zeros (or less) returns the first node's outputs. */
  lemma LookupAllZero(c: ClutTag, input: seq<real>)
    requires Complete(c) && |input| == c.inputChannels as int
    requires forall i :: 0 <= i < |input| ==> input[i] <= 0.0
    ensures c.outputChannels as int <= |c.values|
    ensures Lookup(c, input) == Success(c.values[..c.outputChannels])
  {
    LookupCube(c, input);
    var q := Cells(GridCounts(c.gridPoints), Clamped(input));
    forall e | 0 <= e < |input|
      ensures q.pos[e] == 0 && q.frac[e] == 0.0
    {
      CellInside(0.0, c.gridPoints[e] as int);
    }
    LowestNode(q, c.values, c.outputChannels as nat, true);
  }

  /** An input of all ones (or more) returns the last node's outputs. */
  lemma LookupAllOne(c: ClutTag, input: seq<real>)
    requires Complete(c) && |input| == c.inputChannels as int
    requires forall i :: 0 <= i < |input| ==> input[i] >= 1.0
    ensures var last := (GridProduct(c.gridPoints) - 1) * c.outputChannels as int;
            0 <= last && last + c.outputChannels as int <= |c.values| &&
            Lookup(c, input) == Success(c.values[last..last + c.outputChannels as int])
  {
    LookupCube(c, input);
    var q := Cells(GridCounts(c.gridPoints), Clamped(input));
    forall e | 0 <= e < |input|
      ensures q.pos[e] == q.grid[e] - 2 && q.frac[e] == 1.0
    {
      CellInside(1.0, c.gridPoints[e] as int);
    }
    HighestNode(q, c.values, c.outputChannels as nat, true);
  }

  /** A table whose entries are all v returns v on every output, whatever the input. */
  lemma LookupConstant(c: ClutTag, input: seq<real>, v: real)
    requires Complete(c) && |input| == c.inputChannels as int
    requires forall i :: 0 <= i < |c.values| ==> c.values[i] == v
    ensures Lookup(c, input) == Success(seq(c.outputChannels as int, _ => v))
  {
    LookupCube(c, input);
    var q := Cells(GridCounts(c.gridPoints), Clamped(input));
    ConstantTable(q, c.values, c.outputChannels as nat, true, v);
  }

  /**
   * A decoded tag's cache holds its true size, so Transform on it never
   * reports missing values and is Lookup itself.
   */
  lemma DecodedTransform(raw: seq<byte>, input: seq<real>)
    requires DecodeClut(raw).Success?
    ensures var c := DecodeClut(raw).value.clut;
            |c.gridPoints| == c.inputChannels as int &&
            ExpectedOf(c) == ExpectedValues(c.gridPoints, c.outputChannels) == |c.values| &&
            (|input| == c.inputChannels as int ==> ClutTransform(c, input) == Lookup(c, input))
  {
  }
}
