/**
 * The multi-linear interpolation shared by the CLUT, lut8 and lut16
 * transforms.  Each input channel has a grid position `pos` (the lower grid
 * point of the cell it falls in) and a fraction `frac` of the way to the next
 * point.  The 2^n corners of the cell are numbered so that bit d of the
 * corner number says whether dimension d takes the lower or the upper point;
 * the table is stored row-major with the last dimension varying fastest.
 */
module Interp {
  import opened Wrappers
  import opened RealMath

  /** 2^n. */
  function Pow2(n: nat): (r: nat)
    ensures r >= 1
  {
    if n == 0 then 1 else 2 * Pow2(n - 1)
  }

  /**
   * Go's `1 << n` on a 64-bit int as a loop bound: 2^n up to n = 62; `1 << 63`
   * is negative and wider shifts give 0, so the corner loop then does not run.
   */
  function NumCorners(n: nat): nat {
    if n <= 62 then Pow2(n) else 0
  }

  /** `c >> d` for a non-negative c. */
  function Shr(c: nat, d: nat): nat {
    if d == 0 then c else Shr(c / 2, d - 1)
  }

  /** One more shift halves. */
  lemma {:induction false} ShrSucc(c: nat, d: nat)
    ensures Shr(c, d + 1) == Shr(c, d) / 2
  {
    if d > 0 {
      ShrSucc(c / 2, d - 1);
    }
  }

  /**
   * The cell an input falls in: per dimension the number of grid points, the
   * lower grid position and the fraction towards the upper one.
   */
  datatype Cube = Cube(grid: seq<int>, pos: seq<int>, frac: seq<real>) {
    predicate Shaped() {
      |pos| == |grid| && |frac| == |grid|
    }

    /** Every lower position has an upper neighbour inside its grid. */
    predicate Inside() {
      Shaped() && forall e :: 0 <= e < |grid| ==> 0 <= pos[e] && pos[e] + 1 < grid[e]
    }
  }

  /** The product of the grid counts of dimensions d and up: the stride the loop reaches after dimension d. */
  function Stride(grid: seq<int>, d: nat): int
    requires d <= |grid|
    decreases |grid| - d
  {
    if d == |grid| then 1 else Stride(grid, d + 1) * grid[d]
  }

  /**
   * The flat index of the corner whose bits from dimension d up are those of m
   * (m is the corner shifted right by d): the row-major sum over dimensions
   * d and up of (pos + bit) times the stride of the dimensions after it.
   */
  function CornerIndex(q: Cube, m: nat, d: nat): int
    requires q.Shaped() && d <= |q.grid|
    decreases |q.grid| - d
  {
    if d == |q.grid| then 0
    else CornerIndex(q, m / 2, d + 1) + (q.pos[d] + m % 2) * Stride(q.grid, d + 1)
  }

  /** The factor of one dimension: 1 - frac for the lower point, frac for the upper one. */
  function Factor(frac: real, bit: nat): real {
    if bit == 0 then 1.0 - frac else frac
  }

  /** The weight of that corner: the product of its factors over dimensions d and up. */
  function CornerWeight(q: Cube, m: nat, d: nat): real
    requires q.Shaped() && d <= |q.grid|
    decreases |q.grid| - d
  {
    if d == |q.grid| then 1.0
    else Mul(CornerWeight(q, m / 2, d + 1), Factor(q.frac[d], m % 2))
  }

  /**
   * The first dimension, scanning from the last down to d, at which the
   * corner's position is not below the grid count.
   */
  function OutsideAt(q: Cube, m: nat, d: nat): (r: Option<nat>)
    requires q.Shaped() && d <= |q.grid|
    ensures r.Some? ==> d <= r.value < |q.grid|
    decreases |q.grid| - d
  {
    if d == |q.grid| then None
    else
      match OutsideAt(q, m / 2, d + 1)
      case Some(e) => Some(e)
      case None => if q.pos[d] + m % 2 >= q.grid[d] then Some(d) else None
  }

  /** A dimension found outside higher up is the one the whole scan reports. */
  lemma {:induction false} OutsidePersists(q: Cube, c: nat, d: nat)
    requires q.Shaped() && d <= |q.grid|
    requires OutsideAt(q, Shr(c, d), d).Some?
    ensures OutsideAt(q, c, 0) == OutsideAt(q, Shr(c, d), d)
  {
    if d > 0 {
      ShrSucc(c, d - 1);
      OutsidePersists(q, c, d - 1);
    }
  }

  /** Where one corner lies in the table, and its weight. */
  datatype CornerAt = CornerAt(index: int, weight: real)

  /**
   * The inner loop over dimensions, from the last down to the first, for one
   * corner.  With `checked` it stops at the first dimension whose position
   * reaches the grid count and returns that dimension.
   */
  method WalkCorner(q: Cube, corner: nat, checked: bool) returns (r: Result<CornerAt, nat>)
    requires q.Shaped()
    ensures checked && OutsideAt(q, corner, 0).Some? ==> r == Failure(OutsideAt(q, corner, 0).value)
    ensures !(checked && OutsideAt(q, corner, 0).Some?) ==>
              r == Success(CornerAt(CornerIndex(q, corner, 0), CornerWeight(q, corner, 0)))
  {
    var weight := 1.0;
    var idx := 0;
    var stride := 1;
    var dim := |q.grid|;
    while dim > 0
      invariant 0 <= dim <= |q.grid|
      invariant checked ==> OutsideAt(q, Shr(corner, dim), dim) == None
      invariant idx == CornerIndex(q, Shr(corner, dim), dim)
      invariant stride == Stride(q.grid, dim)
      invariant weight == CornerWeight(q, Shr(corner, dim), dim)
    {
      dim := dim - 1;
      ShrSucc(corner, dim);
      var bit := Shr(corner, dim) % 2;
      var p := q.pos[dim] + bit;
      if checked && p >= q.grid[dim] {
        OutsidePersists(q, corner, dim);
        return Failure(dim);
      }
      idx := idx + p * stride;
      stride := stride * q.grid[dim];
      weight := Mul(weight, Factor(q.frac[dim], bit));
    }
    return Success(CornerAt(idx, weight));
  }

  /** Why a corner could not be read. */
  datatype Fault =
    | OutsideGrid(dim: nat)   // a corner position reached the grid count (checked tables)
    | PastValues              // base + outputs past the values (checked tables)
    | BadIndex                // an unguarded read of the values outside the slice

  function Zeros(n: nat): (r: seq<real>)
    ensures |r| == n && forall o :: 0 <= o < n ==> r[o] == 0.0
  {
    seq(n, _ => 0.0)
  }

  /** The componentwise sum of two output vectors. */
  function VecAdd(a: seq<real>, b: seq<real>): (r: seq<real>)
    requires |a| == |b|
    ensures |r| == |a|
    ensures forall o {:trigger r[o]} | 0 <= o < |a| :: r[o] == a[o] + b[o]
  {
    seq(|a|, o requires 0 <= o < |a| => a[o] + b[o])
  }

  /** The weighted outputs of one node. */
  function Scaled(w: real, vs: seq<real>): (r: seq<real>)
    ensures |r| == |vs|
  {
    seq(|vs|, o requires 0 <= o < |vs| => Mul(w, vs[o]))
  }

  /**
   * What a node adds to the outputs: the weight times its nOut values, which
   * start at base; or a fault when a read falls outside the values.
   */
  function NodeTerm(values: seq<real>, base: int, nOut: nat, weight: real): (r: Result<seq<real>, Fault>)
    ensures r.Success? ==> |r.value| == nOut
    ensures r.Failure? ==> r.error == BadIndex
  {
    if nOut == 0 then Success([])
    else if base < 0 || base + nOut > |values| then Failure(BadIndex)
    else Success(Scaled(weight, values[base..base + nOut]))
  }

  /**
   * What corner c adds to the outputs: its weight times the nOut values of
   * its node, which start at index·nOut; or the fault that stops the loop.
   */
  function CornerTerm(q: Cube, values: seq<real>, nOut: nat, checked: bool, c: nat): (r: Result<seq<real>, Fault>)
    requires q.Shaped()
    ensures r.Success? ==> |r.value| == nOut
  {
    if checked && OutsideAt(q, c, 0).Some? then Failure(OutsideGrid(OutsideAt(q, c, 0).value))
    else
      var base := CornerIndex(q, c, 0) * nOut;
      if checked && base + nOut > |values| then Failure(PastValues)
      else NodeTerm(values, base, nOut, CornerWeight(q, c, 0))
  }

  /** The outputs after corners 0 .. k-1, or the fault of the first corner that has one. */
  function Blend(q: Cube, values: seq<real>, nOut: nat, checked: bool, k: nat): (r: Result<seq<real>, Fault>)
    requires q.Shaped()
    ensures r.Success? ==> |r.value| == nOut
  {
    if k == 0 then Success(Zeros(nOut))
    else
      var acc :- Blend(q, values, nOut, checked, k - 1);
      var term :- CornerTerm(q, values, nOut, checked, k - 1);
      Success(VecAdd(acc, term))
  }

  /** Once a corner faults, every longer loop ends with that fault. */
  lemma {:induction false} BlendFailurePersists(q: Cube, values: seq<real>, nOut: nat, checked: bool, k: nat, n: nat)
    requires q.Shaped() && k <= n
    requires Blend(q, values, nOut, checked, k).Failure?
    ensures Blend(q, values, nOut, checked, n) == Blend(q, values, nOut, checked, k)
  {
    if k < n {
      BlendFailurePersists(q, values, nOut, checked, k, n - 1);
    }
  }

  /**
   * The corner loop of the interpolation: every corner's weighted node is
   * added into `out`, in corner order.
   */
  method Interpolate(q: Cube, values: seq<real>, nOut: nat, checked: bool) returns (r: Result<seq<real>, Fault>)
    requires q.Shaped()
    ensures r == Blend(q, values, nOut, checked, NumCorners(|q.grid|))
  {
    var out := new real[nOut](_ => 0.0);
    assert out[..] == Zeros(nOut);
    for corner := 0 to NumCorners(|q.grid|)
      invariant Blend(q, values, nOut, checked, corner) == Success(out[..])
    {
      var at := WalkCorner(q, corner, checked);
      if at.Failure? {
        r := Failure(OutsideGrid(at.error));
        assert Blend(q, values, nOut, checked, corner + 1) == r;
        BlendFailurePersists(q, values, nOut, checked, corner + 1, NumCorners(|q.grid|));
        return;
      }
      var base := at.value.index * nOut;
      if checked && base + nOut > |values| {
        r := Failure(PastValues);
        assert Blend(q, values, nOut, checked, corner + 1) == r;
        BlendFailurePersists(q, values, nOut, checked, corner + 1, NumCorners(|q.grid|));
        return;
      }
      assert CornerTerm(q, values, nOut, checked, corner) == NodeTerm(values, base, nOut, at.value.weight);
      var ok := AddNode(out, values, base, at.value.weight);
      if !ok {
        r := Failure(BadIndex);
        assert Blend(q, values, nOut, checked, corner + 1) == r;
        BlendFailurePersists(q, values, nOut, checked, corner + 1, NumCorners(|q.grid|));
        return;
      }
    }
    return Success(out[..]);
  }

  /** The innermost loop: out[o] += weight · values[base + o], stopping at the first read outside the values. */
  method AddNode(out: array<real>, values: seq<real>, base: int, weight: real) returns (ok: bool)
    modifies out
    ensures ok <==> NodeTerm(values, base, out.Length, weight).Success?
    ensures ok ==> out[..] == VecAdd(old(out[..]), NodeTerm(values, base, out.Length, weight).value)
  {
    ghost var before := out[..];
    for o := 0 to out.Length
      invariant 0 <= base || o == 0
      invariant o == 0 || base + o <= |values|
      invariant forall j :: 0 <= j < o ==> out[j] == before[j] + Mul(weight, values[base + j])
      invariant forall j :: o <= j < out.Length ==> out[j] == before[j]
    {
      if base + o < 0 || base + o >= |values| {
        return false;
      }
      out[o] := out[o] + Mul(weight, values[base + o]);
    }
    ok := true;
    if out.Length > 0 {
      assert out[..] == VecAdd(before, Scaled(weight, values[base..base + out.Length]));
    }
  }

  // ---------------------------------------------------------------- index bounds

  /** One more digit of a mixed-radix number stays below the next place value. */
  lemma MixedRadix(i: int, s: int, p: int, g: int)
    requires 0 <= i < s && 0 <= p < g
    ensures 0 <= i + p * s < s * g
  {
    assert p * s <= (g - 1) * s;
  }

  /**
   * Inside the grid no corner is outside, and every corner's index lies below
   * the product of the grid counts.
   */
  lemma {:induction false} InsideIndex(q: Cube, m: nat, d: nat)
    requires q.Inside() && d <= |q.grid|
    ensures OutsideAt(q, m, d) == None
    ensures 0 <= CornerIndex(q, m, d) < Stride(q.grid, d)
    decreases |q.grid| - d
  {
    if d < |q.grid| {
      InsideIndex(q, m / 2, d + 1);
      MixedRadix(CornerIndex(q, m / 2, d + 1), Stride(q.grid, d + 1), q.pos[d] + m % 2, q.grid[d]);
    }
  }

  /** A node index below the table size leaves room for all nOut values of the node. */
  lemma NodeFits(idx: int, size: int, nOut: nat)
    requires 0 <= idx < size
    ensures 0 <= idx * nOut && idx * nOut + nOut <= size * nOut
  {
    assert (idx + 1) * nOut <= size * nOut;
  }

  /**
   * Inside the grid and with at least size·nOut values, every corner is read
   * without fault, checked or not: the index errors can only fire when the
   * values are too few.
   */
  lemma CornerInside(q: Cube, values: seq<real>, nOut: nat, checked: bool, c: nat)
    requires q.Inside() && |values| >= Stride(q.grid, 0) * nOut
    ensures CornerTerm(q, values, nOut, checked, c) ==
              NodeTerm(values, CornerIndex(q, c, 0) * nOut, nOut, CornerWeight(q, c, 0))
    ensures CornerTerm(q, values, nOut, checked, c).Success?
  {
    InsideIndex(q, c, 0);
    NodeFits(CornerIndex(q, c, 0), Stride(q.grid, 0), nOut);
  }

  /** ... and so the whole corner loop succeeds. */
  lemma {:induction false} InsideBlend(q: Cube, values: seq<real>, nOut: nat, checked: bool, k: nat)
    requires q.Inside() && |values| >= Stride(q.grid, 0) * nOut
    ensures Blend(q, values, nOut, checked, k).Success?
  {
    if k > 0 {
      InsideBlend(q, values, nOut, checked, k - 1);
      CornerInside(q, values, nOut, checked, k - 1);
    }
  }

  /**
   * Positions that stay at least two below their grid counts, whatever their
   * sign, put no corner outside the grid.
   */
  lemma {:induction false} BelowTopNeverOutside(q: Cube, m: nat, d: nat)
    requires q.Shaped() && d <= |q.grid|
    requires forall e :: 0 <= e < |q.grid| ==> q.pos[e] + 1 < q.grid[e]
    ensures OutsideAt(q, m, d) == None
    decreases |q.grid| - d
  {
    if d < |q.grid| {
      BelowTopNeverOutside(q, m / 2, d + 1);
    }
  }

  /** ... so the corner loop over such positions never stops with OutsideGrid. */
  lemma {:induction false} BlendNeverOutside(q: Cube, values: seq<real>, nOut: nat, checked: bool, k: nat)
    requires q.Shaped()
    requires forall e :: 0 <= e < |q.grid| ==> q.pos[e] + 1 < q.grid[e]
    ensures Blend(q, values, nOut, checked, k).Failure? ==> !Blend(q, values, nOut, checked, k).error.OutsideGrid?
  {
    if k > 0 {
      BlendNeverOutside(q, values, nOut, checked, k - 1);
      BelowTopNeverOutside(q, k - 1, 0);
    }
  }

  /**
   * Inside the grid a checked corner fails exactly when its node reaches
   * past the values, and then with PastValues.
   */
  lemma CheckedCorner(q: Cube, values: seq<real>, nOut: nat, c: nat)
    requires q.Inside()
    ensures CornerTerm(q, values, nOut, true, c).Failure? <==> CornerIndex(q, c, 0) * nOut + nOut > |values|
    ensures CornerTerm(q, values, nOut, true, c).Failure? ==> CornerTerm(q, values, nOut, true, c).error == PastValues
  {
    InsideIndex(q, c, 0);
    NodeFits(CornerIndex(q, c, 0), CornerIndex(q, c, 0) + 1, nOut);
  }

  /**
   * Inside the grid the checked corner loop up to corner k fails exactly when
   * one of those corners reaches past the values, and always with PastValues.
   */
  lemma {:induction false} CheckedBlendOutcome(q: Cube, values: seq<real>, nOut: nat, k: nat)
    requires q.Inside()
    ensures Blend(q, values, nOut, true, k).Failure? <==>
              exists c: nat :: c < k && CornerIndex(q, c, 0) * nOut + nOut > |values|
    ensures Blend(q, values, nOut, true, k).Failure? ==> Blend(q, values, nOut, true, k).error == PastValues
  {
    if k > 0 {
      CheckedBlendOutcome(q, values, nOut, k - 1);
      CheckedCorner(q, values, nOut, k - 1);
      if Blend(q, values, nOut, true, k).Failure? {
        if Blend(q, values, nOut, true, k - 1).Success? {
          assert CornerIndex(q, k - 1, 0) * nOut + nOut > |values|;
        }
      } else {
        forall c: nat | c < k
          ensures CornerIndex(q, c, 0) * nOut + nOut <= |values|
        {
          if c < k - 1 {
            assert !(CornerIndex(q, c, 0) * nOut + nOut > |values|);
          }
        }
      }
    }
  }

  // ---------------------------------------------------------------- weights

  /** The sum of the weights of corners 0 .. k-1, counted from dimension d. */
  function WeightSum(q: Cube, d: nat, k: nat): real
    requires q.Shaped() && d <= |q.grid|
  {
    if k == 0 then 0.0 else WeightSum(q, d, k - 1) + CornerWeight(q, k - 1, d)
  }

  /** Pairing corners 2m and 2m+1 removes dimension d: its two factors add to 1. */
  lemma {:induction false} WeightPairs(q: Cube, d: nat, k: nat)
    requires q.Shaped() && d < |q.grid|
    ensures WeightSum(q, d, 2 * k) == WeightSum(q, d + 1, k)
  {
    if k > 0 {
      WeightPairs(q, d, k - 1);
      var w := CornerWeight(q, k - 1, d + 1);
      var f := q.frac[d];
      assert (2 * k - 2) / 2 == k - 1 && (2 * k - 2) % 2 == 0;
      assert (2 * k - 1) / 2 == k - 1 && (2 * k - 1) % 2 == 1;
      assert CornerWeight(q, 2 * k - 2, d) == Mul(w, 1.0 - f);
      assert CornerWeight(q, 2 * k - 1, d) == Mul(w, f);
      MulAdd(w, 1.0 - f, f);
      MulOneRight(w);
    }
  }

  /** Over the 2^(n-d) corners of dimensions d and up, the weights sum to 1. */
  lemma {:induction false} WeightsSumToOne(q: Cube, d: nat)
    requires q.Shaped() && d <= |q.grid|
    ensures WeightSum(q, d, Pow2(|q.grid| - d)) == 1.0
    decreases |q.grid| - d
  {
    if d < |q.grid| {
      WeightsSumToOne(q, d + 1);
      assert Pow2(|q.grid| - d) == 2 * Pow2(|q.grid| - (d + 1));
      WeightPairs(q, d, Pow2(|q.grid| - (d + 1)));
    }
  }

  /** Adding a vector of a * v to a vector of w * v gives a vector of (a + w) * v. */
  lemma AddConstants(acc: seq<real>, term: seq<real>, a: real, w: real, v: real)
    requires |acc| == |term|
    requires forall o :: 0 <= o < |acc| ==> acc[o] == Mul(a, v)
    requires forall o :: 0 <= o < |term| ==> term[o] == Mul(w, v)
    ensures VecAdd(acc, term) == seq(|acc|, _ => Mul(a + w, v))
  {
    MulAddLeft(a, w, v);
  }

  /**
   * The outputs after k corners, for a table whose entries are all v: v times
   * the weight sum of those corners.
   */
  lemma {:induction false} ConstantBlend(q: Cube, values: seq<real>, nOut: nat, checked: bool, v: real, k: nat)
    requires q.Inside() && |values| >= Stride(q.grid, 0) * nOut
    requires forall i :: 0 <= i < |values| ==> values[i] == v
    ensures Blend(q, values, nOut, checked, k) == Success(seq(nOut, _ => Mul(WeightSum(q, 0, k), v)))
  {
    if k == 0 {
      MulZero(v);
    } else {
      ConstantBlend(q, values, nOut, checked, v, k - 1);
      CornerInside(q, values, nOut, checked, k - 1);
      var w := CornerWeight(q, k - 1, 0);
      var base := CornerIndex(q, k - 1, 0) * nOut;
      var acc := seq(nOut, _ => Mul(WeightSum(q, 0, k - 1), v));
      var term := NodeTerm(values, base, nOut, w).value;
      assert forall o :: 0 <= o < nOut ==> term[o] == Mul(w, v);
      assert WeightSum(q, 0, k) == WeightSum(q, 0, k - 1) + w;
      AddConstants(acc, term, WeightSum(q, 0, k - 1), w, v);
    }
  }

  /**
   * Interpolating a table whose entries are all v gives v on every output,
   * wherever the input falls inside the grid: the corner weights sum to 1.
   */
  lemma ConstantTable(q: Cube, values: seq<real>, nOut: nat, checked: bool, v: real)
    requires q.Inside() && |q.grid| <= 62 && |values| >= Stride(q.grid, 0) * nOut
    requires forall i :: 0 <= i < |values| ==> values[i] == v
    ensures Blend(q, values, nOut, checked, NumCorners(|q.grid|)) == Success(seq(nOut, _ => v))
  {
    ConstantBlend(q, values, nOut, checked, v, Pow2(|q.grid|));
    WeightsSumToOne(q, 0);
    MulOne(v);
  }

  // ---------------------------------------------------------------- the cell's extreme nodes

  /** With every fraction 0, only the lowest corner has weight, and it has weight 1. */
  lemma {:induction false} LowWeight(q: Cube, m: nat, d: nat)
    requires q.Shaped() && d <= |q.grid| && m < Pow2(|q.grid| - d)
    requires forall e :: 0 <= e < |q.grid| ==> q.frac[e] == 0.0
    ensures CornerWeight(q, m, d) == if m == 0 then 1.0 else 0.0
    decreases |q.grid| - d
  {
    if d < |q.grid| {
      assert Pow2(|q.grid| - d) == 2 * Pow2(|q.grid| - (d + 1));
      LowWeight(q, m / 2, d + 1);
    }
  }

  /** The lowest corner of a cell at the origin is node 0. */
  lemma {:induction false} LowIndex(q: Cube, d: nat)
    requires q.Shaped() && d <= |q.grid|
    requires forall e :: 0 <= e < |q.grid| ==> q.pos[e] == 0
    ensures CornerIndex(q, 0, d) == 0
    decreases |q.grid| - d
  {
    if d < |q.grid| {
      LowIndex(q, d + 1);
    }
  }

  /** Adding zeros changes nothing, on either side. */
  lemma AddZeros(a: seq<real>)
    ensures VecAdd(a, Zeros(|a|)) == a && VecAdd(Zeros(|a|), a) == a
  {
  }

  /** For the cell at the origin with every fraction 0, corner 0 brings node 0 and every other corner nothing. */
  lemma LowTerm(q: Cube, values: seq<real>, nOut: nat, checked: bool, c: nat)
    requires q.Inside() && |values| >= Stride(q.grid, 0) * nOut && c < Pow2(|q.grid|)
    requires forall e :: 0 <= e < |q.grid| ==> q.pos[e] == 0 && q.frac[e] == 0.0
    ensures nOut <= |values|
    ensures CornerTerm(q, values, nOut, checked, c) == Success(if c == 0 then values[..nOut] else Zeros(nOut))
  {
    InsideIndex(q, 0, 0);
    NodeFits(0, Stride(q.grid, 0), nOut);
    CornerInside(q, values, nOut, checked, c);
    LowWeight(q, c, 0);
    var base := CornerIndex(q, c, 0) * nOut;
    var term := NodeTerm(values, base, nOut, CornerWeight(q, c, 0)).value;
    if c == 0 {
      LowIndex(q, 0);
      forall o | 0 <= o < nOut
        ensures term[o] == values[o]
      {
        MulOne(values[o]);
      }
      assert term == values[..nOut];
    } else {
      forall o | 0 <= o < nOut
        ensures term[o] == 0.0
      {
        MulZero(values[base + o]);
      }
      assert term == Zeros(nOut);
    }
  }

  /** The corner loop up to corner k, for the cell at the origin with every fraction 0. */
  lemma {:induction false} LowBlend(q: Cube, values: seq<real>, nOut: nat, checked: bool, k: nat)
    requires q.Inside() && |values| >= Stride(q.grid, 0) * nOut && 1 <= k <= Pow2(|q.grid|)
    requires forall e :: 0 <= e < |q.grid| ==> q.pos[e] == 0 && q.frac[e] == 0.0
    ensures nOut <= |values|
    ensures Blend(q, values, nOut, checked, k) == Success(values[..nOut])
  {
    LowTerm(q, values, nOut, checked, k - 1);
    if k == 1 {
      AddZeros(values[..nOut]);
      assert Blend(q, values, nOut, checked, 1) == Success(VecAdd(Zeros(nOut), values[..nOut]));
    } else {
      LowBlend(q, values, nOut, checked, k - 1);
      AddZeros(values[..nOut]);
      assert Blend(q, values, nOut, checked, k) == Success(VecAdd(values[..nOut], Zeros(nOut)));
    }
  }

  /**
   * The cell at the origin with every fraction 0 (an all-zero input)
   * interpolates to node 0 exactly: the first nOut values.
   */
  lemma LowestNode(q: Cube, values: seq<real>, nOut: nat, checked: bool)
    requires q.Inside() && |q.grid| <= 62 && |values| >= Stride(q.grid, 0) * nOut
    requires forall e :: 0 <= e < |q.grid| ==> q.pos[e] == 0 && q.frac[e] == 0.0
    ensures nOut <= |values|
    ensures Blend(q, values, nOut, checked, NumCorners(|q.grid|)) == Success(values[..nOut])
  {
    LowBlend(q, values, nOut, checked, Pow2(|q.grid|));
  }

  /** With every fraction 1, only the highest corner has weight, and it has weight 1. */
  lemma {:induction false} HighWeight(q: Cube, m: nat, d: nat)
    requires q.Shaped() && d <= |q.grid| && m < Pow2(|q.grid| - d)
    requires forall e :: 0 <= e < |q.grid| ==> q.frac[e] == 1.0
    ensures CornerWeight(q, m, d) == if m == Pow2(|q.grid| - d) - 1 then 1.0 else 0.0
    decreases |q.grid| - d
  {
    if d < |q.grid| {
      var half := Pow2(|q.grid| - (d + 1));
      assert Pow2(|q.grid| - d) == 2 * half;
      LowWeightAt(m, half);
      HighWeight(q, m / 2, d + 1);
    }
  }

  /** The halving facts HighWeight needs about the top corner 2h - 1. */
  lemma LowWeightAt(m: nat, half: nat)
    requires half >= 1 && m < 2 * half
    ensures m / 2 < half
    ensures m == 2 * half - 1 ==> m / 2 == half - 1 && m % 2 == 1
    ensures m != 2 * half - 1 && m / 2 == half - 1 ==> m % 2 == 0
  {
  }

  /** The highest corner of the cell in the last grid square of every dimension is the last node. */
  lemma {:induction false} HighIndex(q: Cube, d: nat)
    requires q.Shaped() && d <= |q.grid|
    requires forall e :: 0 <= e < |q.grid| ==> q.pos[e] == q.grid[e] - 2
    ensures CornerIndex(q, Pow2(|q.grid| - d) - 1, d) == Stride(q.grid, d) - 1
    decreases |q.grid| - d
  {
    if d < |q.grid| {
      var half := Pow2(|q.grid| - (d + 1));
      assert Pow2(|q.grid| - d) == 2 * half;
      LowWeightAt(2 * half - 1, half);
      HighIndex(q, d + 1);
      var s := Stride(q.grid, d + 1);
      assert (q.grid[d] - 1) * s + s == s * q.grid[d];
    }
  }

  /** In the last grid square with every fraction 1, the highest corner brings the last node and every other corner nothing. */
  lemma HighTerm(q: Cube, values: seq<real>, nOut: nat, checked: bool, c: nat)
    requires q.Inside() && |values| >= Stride(q.grid, 0) * nOut && c < Pow2(|q.grid|)
    requires forall e :: 0 <= e < |q.grid| ==> q.pos[e] == q.grid[e] - 2 && q.frac[e] == 1.0
    ensures var last := (Stride(q.grid, 0) - 1) * nOut;
            0 <= last && last + nOut <= |values| &&
            CornerTerm(q, values, nOut, checked, c) ==
              Success(if c == Pow2(|q.grid|) - 1 then values[last..last + nOut] else Zeros(nOut))
  {
    InsideIndex(q, c, 0);
    NodeFits(Stride(q.grid, 0) - 1, Stride(q.grid, 0), nOut);
    CornerInside(q, values, nOut, checked, c);
    HighWeight(q, c, 0);
    var base := CornerIndex(q, c, 0) * nOut;
    var term := NodeTerm(values, base, nOut, CornerWeight(q, c, 0)).value;
    if c == Pow2(|q.grid|) - 1 {
      HighIndex(q, 0);
      forall o | 0 <= o < nOut
        ensures term[o] == values[base + o]
      {
        MulOne(values[base + o]);
      }
      assert term == values[base..base + nOut];
    } else {
      forall o | 0 <= o < nOut
        ensures term[o] == 0.0
      {
        MulZero(values[base + o]);
      }
      assert term == Zeros(nOut);
    }
  }

  /** Before the highest corner, every corner of such a cell adds nothing. */
  lemma {:induction false} HighBlendBefore(q: Cube, values: seq<real>, nOut: nat, checked: bool, k: nat)
    requires q.Inside() && |values| >= Stride(q.grid, 0) * nOut && k < Pow2(|q.grid|)
    requires forall e :: 0 <= e < |q.grid| ==> q.pos[e] == q.grid[e] - 2 && q.frac[e] == 1.0
    ensures Blend(q, values, nOut, checked, k) == Success(Zeros(nOut))
  {
    if k > 0 {
      HighBlendBefore(q, values, nOut, checked, k - 1);
      HighTerm(q, values, nOut, checked, k - 1);
      AddZeros(Zeros(nOut));
    }
  }

  /**
   * The cell in the last grid square of every dimension with every fraction 1
   * (an all-one input) interpolates to the last node exactly: the last nOut
   * values of the table.
   */
  lemma HighestNode(q: Cube, values: seq<real>, nOut: nat, checked: bool)
    requires q.Inside() && |q.grid| <= 62 && |values| >= Stride(q.grid, 0) * nOut
    requires forall e :: 0 <= e < |q.grid| ==> q.pos[e] == q.grid[e] - 2 && q.frac[e] == 1.0
    ensures var last := (Stride(q.grid, 0) - 1) * nOut;
            0 <= last && last + nOut <= |values| &&
            Blend(q, values, nOut, checked, NumCorners(|q.grid|)) == Success(values[last..last + nOut])
  {
    var top := Pow2(|q.grid|) - 1;
    assert NumCorners(|q.grid|) == top + 1;
    HighBlendBefore(q, values, nOut, checked, top);
    var last := (Stride(q.grid, 0) - 1) * nOut;
    HighTop(q, values, nOut, checked, last);
    BlendOntoZeros(q, values, nOut, checked, top, values[last..last + nOut]);
  }

  /** In the last grid square with every fraction 1, the highest corner brings exactly the last node. */
  lemma HighTop(q: Cube, values: seq<real>, nOut: nat, checked: bool, last: int)
    requires q.Inside() && |values| >= Stride(q.grid, 0) * nOut
    requires forall e :: 0 <= e < |q.grid| ==> q.pos[e] == q.grid[e] - 2 && q.frac[e] == 1.0
    requires last == (Stride(q.grid, 0) - 1) * nOut
    ensures 0 <= last && last + nOut <= |values|
    ensures CornerTerm(q, values, nOut, checked, Pow2(|q.grid|) - 1) == Success(values[last..last + nOut])
  {
    HighTerm(q, values, nOut, checked, Pow2(|q.grid|) - 1);
  }

  /** A corner loop that has added nothing so far ends, after one more corner, with that corner's term. */
  lemma BlendOntoZeros(q: Cube, values: seq<real>, nOut: nat, checked: bool, k: nat, v: seq<real>)
    requires q.Shaped()
    requires Blend(q, values, nOut, checked, k) == Success(Zeros(nOut))
    requires CornerTerm(q, values, nOut, checked, k) == Success(v)
    ensures Blend(q, values, nOut, checked, k + 1) == Success(v)
  {
    AddZeros(v);
    assert Blend(q, values, nOut, checked, k + 1) == Success(VecAdd(Zeros(nOut), v));
  }
}
