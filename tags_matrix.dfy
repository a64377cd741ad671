/**
 * The matrix tag: nine s15Fixed16 numbers of a 3x3 matrix, stored row by row
 * after the 8-byte type header, optionally followed by a three-number offset.
 */
module MatrixTags {
  import opened Wrappers
  import opened Bytes
  import opened Errors
  import opened FixedFloat
  import opened RealMath
  import opened TagValues

  /** The three numbers whose twelve bytes start at `at`. */
  function RowAt(raw: seq<byte>, at: nat): Row
    requires at + 12 <= |raw|
  {
    [S15At(raw, at), S15At(raw, at + 4), S15At(raw, at + 8)]
  }

  /**
   * mtxDecoder: at least 44 bytes; entry (i, j) is number 3i + j of the body,
   * and the offset is there exactly when the block reaches byte 56.
   */
  function DecodeMtx(raw: seq<byte>): (r: Result<TagValue, Error>)
    ensures r.Failure? <==> |raw| < 44
    ensures r.Failure? ==> r.error == TooShort("mtx")
    ensures r.Success? ==>
              && r.value.Matrix?
              && r.value.mtx.matrix == MatrixAt(raw)
              && (r.value.mtx.offset.Some? <==> |raw| >= 56)
              && (r.value.mtx.offset.Some? ==> r.value.mtx.offset.value == RowAt(raw, 44))
  {
    if |raw| < 44 then Failure(TooShort("mtx"))
    else
      var offset := if |raw| >= 56 then Some(RowAt(raw, 44)) else None;
      Success(Matrix(MatrixTag(MatrixAt(raw), offset)))
  }

  /** The nine numbers after the type header, three to a row. */
  function MatrixAt(raw: seq<byte>): Matrix3
    requires |raw| >= 44
  {
    [RowAt(raw, 8), RowAt(raw, 20), RowAt(raw, 32)]
  }

  /** The matrix is stored row-major: entry (i, j) is number 3i + j of the body. */
  lemma RowMajor(raw: seq<byte>, i: nat, j: nat)
    requires |raw| >= 44 && i < 3 && j < 3
    ensures MatrixAt(raw)[i][j] == S15At(raw, 8 + 4 * (3 * i + j))
  {
    assert 8 + 4 * (3 * i + j) == 8 + 12 * i + 4 * j;
  }

  /** Storing entry i changes cell i and no other. */
  lemma CellUpdate(m: seq<seq<real>>, i: nat, v: real, k: nat)
    requires i < 9 && k < 9 && |m| == 3 && |m[0]| == 3 && |m[1]| == 3 && |m[2]| == 3
    ensures var m' := m[i / 3 := m[i / 3][i % 3 := v]];
            |m'| == 3 && |m'[0]| == 3 && |m'[1]| == 3 && |m'[2]| == 3 &&
            Cell(m', k) == if k == i then v else Cell(m, k)
  {
    assert k == 3 * (k / 3) + k % 3;
    assert i == 3 * (i / 3) + i % 3;
  }

  /** Once all nine cells hold their numbers, the rows are the matrix the block stores. */
  lemma CellsAreMatrix(m: seq<seq<real>>, raw: seq<byte>)
    requires |raw| >= 44 && |m| == 3 && |m[0]| == 3 && |m[1]| == 3 && |m[2]| == 3
    requires forall k :: 0 <= k < 9 ==> Cell(m, k) == S15At(raw, 8 + 4 * k)
    ensures [m[0], m[1], m[2]] == MatrixAt(raw)
  {
    assert m[0] == RowAt(raw, 8) by {
      assert Cell(m, 0) == S15At(raw, 8) && Cell(m, 1) == S15At(raw, 12) && Cell(m, 2) == S15At(raw, 16);
    }
    assert m[1] == RowAt(raw, 20) by {
      assert Cell(m, 3) == S15At(raw, 20) && Cell(m, 4) == S15At(raw, 24) && Cell(m, 5) == S15At(raw, 28);
    }
    assert m[2] == RowAt(raw, 32) by {
      assert Cell(m, 6) == S15At(raw, 32) && Cell(m, 7) == S15At(raw, 36) && Cell(m, 8) == S15At(raw, 40);
    }
  }

  /** Entry k of the body, in the matrix it is stored into: row k/3, column k%3. */
  function Cell(m: seq<seq<real>>, k: nat): real
    requires k < 9 && |m| == 3 && |m[0]| == 3 && |m[1]| == 3 && |m[2]| == 3
  {
    m[k / 3][k % 3]
  }

  /** mtxDecoder with the source's loops: entry i of the body goes to row i/3, column i%3. */
  method MtxDecoder(raw: seq<byte>) returns (r: Result<TagValue, Error>)
    ensures r == DecodeMtx(raw)
  {
    if |raw| < 44 {
      return Failure(TooShort("mtx"));
    }
    var body := raw[8..];
    var m: seq<seq<real>> := [ZeroRow, ZeroRow, ZeroRow];
    for i := 0 to 9
      invariant |m| == 3 && |m[0]| == 3 && |m[1]| == 3 && |m[2]| == 3
      invariant forall k :: 0 <= k < i ==> Cell(m, k) == S15At(raw, 8 + 4 * k)
    {
      var v := S15At(body, i * 4);
      S15AtShift(raw, 8, body, i * 4);
      forall k | 0 <= k < 9 {
        CellUpdate(m, i, v, k);
      }
      ghost var prev := m;
      m := m[i / 3 := m[i / 3][i % 3 := v]];
      assert Cell(m, i) == S15At(raw, 8 + 4 * i);
      assert forall k :: 0 <= k < i ==> Cell(m, k) == Cell(prev, k);
    }
    var offset: Option<Row> := None;
    if |body| >= 48 {
      var o: seq<real> := ZeroRow;
      for i := 0 to 3
        invariant |o| == 3
        invariant forall k :: 0 <= k < i ==> o[k] == S15At(raw, 44 + 4 * k)
      {
        S15AtShift(raw, 8, body, 36 + i * 4);
        o := o[i := S15At(body, 36 + i * 4)];
      }
      assert o == RowAt(raw, 44);
      offset := Some(o);
    }
    CellsAreMatrix(m, raw);
    r := Success(Matrix(MatrixTag([m[0], m[1], m[2]], offset)));
  }

  /** The sum of the first j products row[k]·v[k]. */
  function PartialDot(row: Row, v: seq<real>, j: nat): real
    requires |v| == 3 && j <= 3
  {
    if j == 0 then 0.0 else PartialDot(row, v, j - 1) + Mul(row[j - 1], v[j - 1])
  }

  function Dot(row: Row, v: seq<real>): real
    requires |v| == 3
  {
    PartialDot(row, v, 3)
  }

  /** MatrixTag.Transform: out[i] = Σ_j M[i][j]·in[j], plus Offset[i] when there is an offset. */
  function MatrixTransform(m: MatrixTag, input: seq<real>): (r: Result<seq<real>, Error>)
    ensures r.Failure? <==> |input| != 3
    ensures r.Failure? ==> r.error == ChannelCount(3, |input|)
    ensures r.Success? ==> |r.value| == 3
    ensures r.Success? ==> forall i | 0 <= i < 3 ::
              r.value[i] == Dot(m.matrix[i], input) + (if m.offset.Some? then m.offset.value[i] else 0.0)
  {
    if |input| != 3 then Failure(ChannelCount(3, |input|))
    else
      var lin := [Dot(m.matrix[0], input), Dot(m.matrix[1], input), Dot(m.matrix[2], input)];
      match m.offset
      case None => Success(lin)
      case Some(o) => Success([lin[0] + o[0], lin[1] + o[1], lin[2] + o[2]])
  }

  /** MatrixTag.Transform with the source's nested accumulation loops. */
  method MatrixTransformer(m: MatrixTag, input: seq<real>) returns (r: Result<seq<real>, Error>)
    ensures r == MatrixTransform(m, input)
  {
    if |input| != 3 {
      return Failure(ChannelCount(3, |input|));
    }
    var out := new real[3](_ => 0.0);
    for i := 0 to 3
      invariant forall k :: 0 <= k < i ==> out[k] == Dot(m.matrix[k], input)
      invariant forall k :: i <= k < 3 ==> out[k] == 0.0
    {
      ghost var before := out[..];
      for j := 0 to 3
        invariant out[i] == PartialDot(m.matrix[i], input, j)
        invariant forall k :: 0 <= k < 3 && k != i ==> out[k] == before[k]
      {
        out[i] := out[i] + Mul(m.matrix[i][j], input[j]);
      }
    }
    if m.offset.Some? {
      var o := m.offset.value;
      for i := 0 to 3
        invariant forall k :: 0 <= k < i ==> out[k] == Dot(m.matrix[k], input) + o[k]
        invariant forall k :: i <= k < 3 ==> out[k] == Dot(m.matrix[k], input)
      {
        out[i] := out[i] + o[i];
      }
    }
    assert out[..] == [out[0], out[1], out[2]];
    r := Success(out[..]);
  }

  lemma DotExpand(row: Row, v: seq<real>)
    requires |v| == 3
    ensures Dot(row, v) == Mul(row[0], v[0]) + Mul(row[1], v[1]) + Mul(row[2], v[2])
  {
    assert PartialDot(row, v, 1) == Mul(row[0], v[0]);
    assert PartialDot(row, v, 2) == Mul(row[0], v[0]) + Mul(row[1], v[1]);
  }

  const Identity3: Matrix3 := [[1.0, 0.0, 0.0], [0.0, 1.0, 0.0], [0.0, 0.0, 1.0]]

  /** Row i of the identity picks out component i. */
  lemma IdentityRow(v: seq<real>, i: nat)
    requires |v| == 3 && i < 3
    ensures Dot(Identity3[i], v) == v[i]
  {
    DotExpand(Identity3[i], v);
    MulOne(v[i]);
    MulZero(v[0]);
    MulZero(v[1]);
    MulZero(v[2]);
    MulOne(v[0]);
    MulOne(v[1]);
    MulOne(v[2]);
  }

  /** The unit vector along axis j. */
  function Basis(j: nat): (e: seq<real>)
    requires j < 3
    ensures |e| == 3 && e[j] == 1.0
    ensures forall k | 0 <= k < 3 && k != j :: e[k] == 0.0
  {
    seq(3, k => if k == j then 1.0 else 0.0)
  }

  /**
   * The image of the unit vector e_j is column j of the matrix (plus the
   * offset): rows multiply the input, so output i reads entry (i, j).
   */
  lemma BasisColumn(m: MatrixTag, i: nat, j: nat)
    requires i < 3 && j < 3
    ensures MatrixTransform(m, Basis(j)).Success?
    ensures MatrixTransform(m, Basis(j)).value[i] ==
              m.matrix[i][j] + (if m.offset.Some? then m.offset.value[i] else 0.0)
  {
    var e, row := Basis(j), m.matrix[i];
    DotExpand(row, e);
    MulOneRight(row[j]);
    forall k | 0 <= k < 3 && k != j
      ensures Mul(row[k], e[k]) == 0.0
    {
      MulZeroRight(row[k]);
    }
  }

  /** The identity matrix without an offset changes nothing. */
  lemma IdentityTransform(v: seq<real>)
    requires |v| == 3
    ensures MatrixTransform(MatrixTag(Identity3, None), v) == Success(v)
  {
    assert [v[0], v[1], v[2]] == v;
    IdentityRow(v, 0);
    IdentityRow(v, 1);
    IdentityRow(v, 2);
  }

  /** The identity matrix with an offset adds the offset. */
  lemma IdentityWithOffset(v: seq<real>, o: Row)
    requires |v| == 3
    ensures MatrixTransform(MatrixTag(Identity3, Some(o)), v) == Success([v[0] + o[0], v[1] + o[1], v[2] + o[2]])
  {
    IdentityRow(v, 0);
    IdentityRow(v, 1);
    IdentityRow(v, 2);
  }

  /** An offset is added after the matrix product and changes nothing else. */
  lemma OffsetAdds(mat: Matrix3, o: Row, v: seq<real>, i: nat)
    requires |v| == 3 && i < 3
    ensures MatrixTransform(MatrixTag(mat, Some(o)), v).value[i] ==
              MatrixTransform(MatrixTag(mat, None), v).value[i] + o[i]
  {
  }

  /** Without an offset the transform is linear: the image of a sum is the sum of the images. */
  lemma {:induction false} DotAdditive(row: Row, u: seq<real>, v: seq<real>, j: nat)
    requires |u| == 3 && |v| == 3 && j <= 3
    ensures PartialDot(row, Add(u, v), j) == PartialDot(row, u, j) + PartialDot(row, v, j)
  {
    if j > 0 {
      DotAdditive(row, u, v, j - 1);
      MulAdd(row[j - 1], u[j - 1], v[j - 1]);
    }
  }

  function Add(u: seq<real>, v: seq<real>): (r: seq<real>)
    requires |u| == |v|
    ensures |r| == |u| && forall i :: 0 <= i < |u| ==> r[i] == u[i] + v[i]
  {
    seq(|u|, i requires 0 <= i < |u| => u[i] + v[i])
  }

  lemma Linear(mat: Matrix3, u: seq<real>, v: seq<real>)
    requires |u| == 3 && |v| == 3
    ensures MatrixTransform(MatrixTag(mat, None), Add(u, v)).value ==
              Add(MatrixTransform(MatrixTag(mat, None), u).value, MatrixTransform(MatrixTag(mat, None), v).value)
  {
    DotAdditive(mat[0], u, v, 3);
    DotAdditive(mat[1], u, v, 3);
    DotAdditive(mat[2], u, v, 3);
  }

  /**
   * A block of nine numbers and fewer than twelve further bytes decodes to
   * those numbers, row by row, without an offset.
   */
  lemma {:induction false} MtxRoundTrip(header: seq<byte>, ns: seq<int>, tail: seq<byte>, i: nat, j: nat)
    requires |header| == 8 && |ns| == 9 && |tail| < 12 && i < 3 && j < 3
    requires forall k :: 0 <= k < |ns| ==> IsNumerator(ns[k])
    ensures var r := DecodeMtx(header + BytesOfU32s(SignedWords(ns)) + tail);
            && r.Success? && r.value.mtx.offset == None
            && r.value.mtx.matrix[i][j] == ns[3 * i + j] as real / 65536.0
  {
    var ws := SignedWords(ns);
    var raw := header + BytesOfU32s(ws) + tail;
    var k := 3 * i + j;
    assert |raw| == 44 + |tail|;
    assert S15At(raw, 8 + 4 * k) == ns[k] as real / 65536.0 by {
      S15AtWord(raw, header, ws, tail, k, ns[k]);
    }
    RowMajor(raw, i, j);
    var r := DecodeMtx(raw);
    assert r.value.mtx.matrix[i][j] == MatrixAt(raw)[i][j];
  }

  /** With twelve numbers the last three are the offset. */
  lemma {:induction false} MtxOffsetRoundTrip(header: seq<byte>, ns: seq<int>, tail: seq<byte>, i: nat)
    requires |header| == 8 && |ns| == 12 && i < 3
    requires forall k :: 0 <= k < |ns| ==> IsNumerator(ns[k])
    ensures var r := DecodeMtx(header + BytesOfU32s(SignedWords(ns)) + tail);
            && r.Success? && r.value.mtx.offset.Some?
            && r.value.mtx.offset.value[i] == ns[9 + i] as real / 65536.0
  {
    var ws := SignedWords(ns);
    var raw := header + BytesOfU32s(ws) + tail;
    S15AtWord(raw, header, ws, tail, 9 + i, ns[9 + i]);
  }
}
