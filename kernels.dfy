/**
 * The three multiplication kernels: the naive (i, j, k) triple loop and the
 * two tiled variants, IJK and IKJ. Each writes only the output buffer, zeroes
 * it first, and leaves it holding the exact product of its operands.
 */
module Kernels {
  import opened Matrices
  import opened Tiling

  /** Sets every element of C to zero. */
  method ZeroFill(C: Matrix)
    requires C.Valid()
    modifies C.data
    ensures forall p :: 0 <= p < C.data.Length ==> C.data[p] == 0
  {
    for p := 0 to C.size * C.size
      invariant forall q :: 0 <= q < p ==> C.data[q] == 0
    {
      C.data[p] := 0;
    }
  }

  /** The innermost loop of the naive kernel: C(i, j) += A(i, k) * B(k, j) for every k, in place. */
  method AccumulateCellInPlace(A: Matrix, B: Matrix, C: Matrix, i: nat, j: nat)
    requires Conformable(A, B, C)
    requires i < A.size && j < A.size
    requires At(C.data[..], A.size, i, j) == PartialDot(A.data[..], B.data[..], A.size, i, j, 0)
    modifies C.data
    ensures At(C.data[..], A.size, i, j) == PartialDot(A.data[..], B.data[..], A.size, i, j, A.size)
    ensures AgreeOutside(old(C.data[..]), C.data[..], A.size, i, i + 1, j, j + 1)
  {
    var n := A.size;
    ghost var a, b := A.data[..], B.data[..];
    for k := 0 to n
      invariant At(C.data[..], n, i, j) == PartialDot(a, b, n, i, j, k)
      invariant AgreeOutside(old(C.data[..]), C.data[..], n, i, i + 1, j, j + 1)
    {
      ghost var cur := C.data[..];
      CellInBuffer(C, n, i, j);
      CellInBuffer(A, n, i, k);
      CellInBuffer(B, n, k, j);
      assert C.data[i * n + j] == At(cur, n, i, j);
      C.data[i * n + j] := C.data[i * n + j] + A.data[i * n + k] * B.data[k * n + j];
      ghost var nxt := C.data[..];
      assert At(nxt, n, i, j) == At(cur, n, i, j) + At(a, n, i, k) * At(b, n, k, j);
      RowSegmentFrame(cur, nxt, n, i, j, j + 1);
      AgreeOutsideTrans(old(C.data[..]), cur, nxt, n, i, i + 1, j, j + 1, i, i + 1, j, j + 1);
    }
  }

  /** The naive kernel: zero C, then C(i, j) += A(i, k) * B(k, j) for i, then j, then k. */
  method NaiveMultiply(A: Matrix, B: Matrix, C: Matrix)
    requires Conformable(A, B, C)
    modifies C.data
    ensures C.data[..] == Product(A.data[..], B.data[..], A.size)
  {
    var n := A.size;
    ghost var a, b := A.data[..], B.data[..];
    ZeroFill(C);
    ZeroBlock(C.data[..], a, b, n);
    CellsDoneEnds(C.data[..], a, b, n, 0, n, 0, n, 0, n);
    for i := 0 to n
      invariant CellsDone(C.data[..], a, b, n, 0, n, 0, n, 0, n, i, 0)
    {
      for j := 0 to n
        invariant CellsDone(C.data[..], a, b, n, 0, n, 0, n, 0, n, i, j)
      {
        ghost var before := C.data[..];
        assert At(before, n, i, j) == PartialDot(a, b, n, i, j, 0);
        AccumulateCellInPlace(A, B, C, i, j);
        CellsDoneStep(before, C.data[..], a, b, n, 0, n, 0, n, 0, n, i, j);
      }
      CellsDoneNextRow(C.data[..], a, b, n, 0, n, 0, n, 0, n, i);
    }
    CellsDoneEnds(C.data[..], a, b, n, 0, n, 0, n, 0, n);
    ProductFromEntries(C.data[..], a, b, n);
  }

  /**
   * The innermost step of the IJK kernel for one cell (i, j): a scalar seeded
   * from C(i, j) accumulates A(i, k) * B(k, j) for k in [kk, kEnd) and is
   * written back to C(i, j) once.
   */
  method AccumulateCell(A: Matrix, B: Matrix, C: Matrix, i: nat, j: nat, kk: nat, kEnd: nat)
    requires Conformable(A, B, C)
    requires i < A.size && j < A.size && kk <= kEnd <= A.size
    requires At(C.data[..], A.size, i, j) == PartialDot(A.data[..], B.data[..], A.size, i, j, kk)
    modifies C.data
    ensures At(C.data[..], A.size, i, j) == PartialDot(A.data[..], B.data[..], A.size, i, j, kEnd)
    ensures AgreeOutside(old(C.data[..]), C.data[..], A.size, i, i + 1, j, j + 1)
  {
    var n := A.size;
    ghost var a, b := A.data[..], B.data[..];
    CellInBuffer(C, n, i, j);
    var sum := C.data[i * n + j];
    for k := kk to kEnd
      invariant sum == PartialDot(a, b, n, i, j, k)
      invariant C.data[..] == old(C.data[..])
    {
      CellInBuffer(A, n, i, k);
      CellInBuffer(B, n, k, j);
      sum := sum + A.data[i * n + k] * B.data[k * n + j];
    }
    C.data[i * n + j] := sum;
    RowSegmentFrame(old(C.data[..]), C.data[..], n, i, j, j + 1);
  }

  /** One tile of the IJK kernel: every cell of rows [ii, iEnd) x columns [jj, jEnd), row by row. */
  method MultiplyTileIJK(A: Matrix, B: Matrix, C: Matrix, ii: nat, iEnd: nat, jj: nat, jEnd: nat, kk: nat, kEnd: nat)
    requires Conformable(A, B, C)
    requires ii <= iEnd <= A.size && jj <= jEnd <= A.size && kk <= kEnd <= A.size
    requires PartialBlock(C.data[..], A.data[..], B.data[..], A.size, ii, iEnd, jj, jEnd, kk)
    modifies C.data
    ensures PartialBlock(C.data[..], A.data[..], B.data[..], A.size, ii, iEnd, jj, jEnd, kEnd)
    ensures AgreeOutside(old(C.data[..]), C.data[..], A.size, ii, iEnd, jj, jEnd)
  {
    var n := A.size;
    ghost var a, b := A.data[..], B.data[..];
    CellsDoneEnds(C.data[..], a, b, n, ii, iEnd, jj, jEnd, kk, kEnd);
    for i := ii to iEnd
      invariant CellsDone(C.data[..], a, b, n, ii, iEnd, jj, jEnd, kk, kEnd, i, jj)
      invariant AgreeOutside(old(C.data[..]), C.data[..], n, ii, iEnd, jj, jEnd)
    {
      for j := jj to jEnd
        invariant CellsDone(C.data[..], a, b, n, ii, iEnd, jj, jEnd, kk, kEnd, i, j)
        invariant AgreeOutside(old(C.data[..]), C.data[..], n, ii, iEnd, jj, jEnd)
      {
        ghost var before := C.data[..];
        assert At(before, n, i, j) == PartialDot(a, b, n, i, j, kk);
        AccumulateCell(A, B, C, i, j, kk, kEnd);
        ghost var after := C.data[..];
        CellsDoneStep(before, after, a, b, n, ii, iEnd, jj, jEnd, kk, kEnd, i, j);
        AgreeOutsideTrans(old(C.data[..]), before, after, n, ii, iEnd, jj, jEnd, i, i + 1, j, j + 1);
      }
      CellsDoneNextRow(C.data[..], a, b, n, ii, iEnd, jj, jEnd, kk, kEnd, i);
    }
    CellsDoneEnds(C.data[..], a, b, n, ii, iEnd, jj, jEnd, kk, kEnd);
  }

  /**
   * All kk tiles of the IJK kernel for one output tile rows [ii, iEnd) x
   * columns [jj, jEnd): each adds the products over k in [kk, kk + tileSize),
   * clamped at n, so the tile goes from no partial sum to the full one.
   */
  method MultiplyOutputTileIJK(A: Matrix, B: Matrix, C: Matrix, ii: nat, iEnd: nat, jj: nat, jEnd: nat, tileSize: nat)
    requires Conformable(A, B, C)
    requires tileSize >= 1
    requires ii <= iEnd <= A.size && jj <= jEnd <= A.size
    requires PartialBlock(C.data[..], A.data[..], B.data[..], A.size, ii, iEnd, jj, jEnd, 0)
    modifies C.data
    ensures PartialBlock(C.data[..], A.data[..], B.data[..], A.size, ii, iEnd, jj, jEnd, A.size)
    ensures AgreeOutside(old(C.data[..]), C.data[..], A.size, ii, iEnd, jj, jEnd)
  {
    var n := A.size;
    ghost var a, b := A.data[..], B.data[..];
    var kk := 0;
    while kk < n
      invariant PartialBlock(C.data[..], a, b, n, ii, iEnd, jj, jEnd, Min(kk, n))
      invariant AgreeOutside(old(C.data[..]), C.data[..], n, ii, iEnd, jj, jEnd)
      decreases n - kk
    {
      var kEnd := TileEnd(kk, tileSize, n);
      ghost var before := C.data[..];
      MultiplyTileIJK(A, B, C, ii, iEnd, jj, jEnd, kk, kEnd);
      AgreeOutsideTrans(old(C.data[..]), before, C.data[..], n, ii, iEnd, jj, jEnd, ii, iEnd, jj, jEnd);
      assert Min(kk + tileSize, n) == kEnd;
      kk := kk + tileSize;
    }
  }

  /**
   * The IJK-tiled kernel: zero C, then visit tiles in (ii, jj, kk) order,
   * each tile clamped at the matrix edge. Partial sums stay in C between the
   * kk tiles of one (ii, jj) block.
   */
  method CacheAwareMultiply(A: Matrix, B: Matrix, C: Matrix, tileSize: nat)
    requires Conformable(A, B, C)
    requires tileSize >= 1
    modifies C.data
    ensures C.data[..] == Product(A.data[..], B.data[..], A.size)
  {
    var n := A.size;
    ghost var a, b := A.data[..], B.data[..];
    ZeroFill(C);
    ZeroBlock(C.data[..], a, b, n);
    var ii := 0;
    while ii < n
      invariant Stage(C.data[..], a, b, n, Min(ii, n), Min(ii, n), 0, 0, n, 0, 0)
      decreases n - ii
    {
      var iEnd := TileEnd(ii, tileSize, n);
      StageRelabel(C.data[..], a, b, n, ii, ii, 0, 0, n, 0, 0, ii, iEnd, 0, 0, n, 0, 0);
      var jj := 0;
      while jj < n
        invariant Stage(C.data[..], a, b, n, ii, iEnd, Min(jj, n), Min(jj, n), n, 0, 0)
        decreases n - jj
      {
        var jEnd := TileEnd(jj, tileSize, n);
        StageRelabel(C.data[..], a, b, n, ii, iEnd, jj, jj, n, 0, 0, ii, iEnd, jj, jEnd, n, 0, 0);
        ghost var before := C.data[..];
        StageTile(before, a, b, n, ii, iEnd, jj, jEnd, n, 0, 0);
        MultiplyOutputTileIJK(A, B, C, ii, iEnd, jj, jEnd, tileSize);
        StageStep(before, C.data[..], a, b, n, ii, iEnd, jj, jEnd, n, 0, 0, n);
        StageRelabel(C.data[..], a, b, n, ii, iEnd, jj, jEnd, n, n, 0, ii, iEnd, jEnd, jEnd, n, 0, 0);
        assert Min(jj + tileSize, n) == jEnd;
        jj := jj + tileSize;
      }
      StageRelabel(C.data[..], a, b, n, ii, iEnd, n, n, n, 0, 0, iEnd, iEnd, 0, 0, n, 0, 0);
      assert Min(ii + tileSize, n) == iEnd;
      ii := ii + tileSize;
    }
    StageTile(C.data[..], a, b, n, n, n, 0, 0, n, 0, 0);
    ProductFromEntries(C.data[..], a, b, n);
  }

  /**
   * The innermost step of the IKJ kernel for one (i, k): A(i, k) is read once
   * and A(i, k) * B(k, j) is added into C(i, j) for j in [jj, jEnd), walking
   * row k of B and row i of C with unit stride.
   */
  method AccumulateRowSegment(A: Matrix, B: Matrix, C: Matrix, i: nat, k: nat, jj: nat, jEnd: nat)
    requires Conformable(A, B, C)
    requires i < A.size && k < A.size && jj <= jEnd <= A.size
    requires PartialBlock(C.data[..], A.data[..], B.data[..], A.size, i, i + 1, jj, jEnd, k)
    modifies C.data
    ensures PartialBlock(C.data[..], A.data[..], B.data[..], A.size, i, i + 1, jj, jEnd, k + 1)
    ensures AgreeOutside(old(C.data[..]), C.data[..], A.size, i, i + 1, jj, jEnd)
  {
    var n := A.size;
    ghost var a, b := A.data[..], B.data[..];
    CellInBuffer(A, n, i, k);
    var aik := A.data[i * n + k];
    for j := jj to jEnd
      invariant PartialBlock(C.data[..], a, b, n, i, i + 1, jj, j, k + 1)
      invariant PartialBlock(C.data[..], a, b, n, i, i + 1, j, jEnd, k)
      invariant AgreeOutside(old(C.data[..]), C.data[..], n, i, i + 1, jj, j)
    {
      ghost var before := C.data[..];
      CellInBuffer(C, n, i, j);
      CellInBuffer(B, n, k, j);
      assert C.data[i * n + j] == At(before, n, i, j);
      C.data[i * n + j] := C.data[i * n + j] + aik * B.data[k * n + j];
      ghost var after := C.data[..];
      RowSegmentFrame(before, after, n, i, j, j + 1);
      assert At(after, n, i, j) == PartialDot(a, b, n, i, j, k + 1);
      RowSegmentStep(before, after, old(C.data[..]), a, b, n, i, jj, j, jEnd, k);
    }
  }

  /** One tile of the IKJ kernel: for each row i of the tile, each k of the tile in turn. */
  method MultiplyTileIKJ(A: Matrix, B: Matrix, C: Matrix, ii: nat, iEnd: nat, kk: nat, kEnd: nat, jj: nat, jEnd: nat)
    requires Conformable(A, B, C)
    requires ii <= iEnd <= A.size && jj <= jEnd <= A.size && kk <= kEnd <= A.size
    requires PartialBlock(C.data[..], A.data[..], B.data[..], A.size, ii, iEnd, jj, jEnd, kk)
    modifies C.data
    ensures PartialBlock(C.data[..], A.data[..], B.data[..], A.size, ii, iEnd, jj, jEnd, kEnd)
    ensures AgreeOutside(old(C.data[..]), C.data[..], A.size, ii, iEnd, jj, jEnd)
  {
    var n := A.size;
    ghost var a, b := A.data[..], B.data[..];
    RowsDoneEnds(C.data[..], a, b, n, ii, iEnd, jj, jEnd, kk, kEnd);
    for i := ii to iEnd
      invariant RowsDone(C.data[..], a, b, n, ii, iEnd, jj, jEnd, kk, kEnd, i, kk)
      invariant AgreeOutside(old(C.data[..]), C.data[..], n, ii, iEnd, jj, jEnd)
    {
      for k := kk to kEnd
        invariant RowsDone(C.data[..], a, b, n, ii, iEnd, jj, jEnd, kk, kEnd, i, k)
        invariant AgreeOutside(old(C.data[..]), C.data[..], n, ii, iEnd, jj, jEnd)
      {
        ghost var before := C.data[..];
        RowsDoneCurrentRow(before, a, b, n, ii, iEnd, jj, jEnd, kk, kEnd, i, k);
        AccumulateRowSegment(A, B, C, i, k, jj, jEnd);
        ghost var after := C.data[..];
        RowsDoneStep(before, after, a, b, n, ii, iEnd, jj, jEnd, kk, kEnd, i, k);
        AgreeOutsideTrans(old(C.data[..]), before, after, n, ii, iEnd, jj, jEnd, i, i + 1, jj, jEnd);
        assert RowsDone(after, a, b, n, ii, iEnd, jj, jEnd, kk, kEnd, i, k + 1);
      }
      RowsDoneNextRow(C.data[..], a, b, n, ii, iEnd, jj, jEnd, kk, kEnd, i);
    }
    RowsDoneEnds(C.data[..], a, b, n, ii, iEnd, jj, jEnd, kk, kEnd);
  }

  /**
   * All jj tiles of the IKJ kernel for one row band [ii, iEnd) and one k
   * range [kk, kEnd): across the whole band, the partial sums advance from kk
   * to kEnd, tile by tile.
   */
  method MultiplyPanelIKJ(A: Matrix, B: Matrix, C: Matrix, ii: nat, iEnd: nat, kk: nat, kEnd: nat, tileSize: nat)
    requires Conformable(A, B, C)
    requires tileSize >= 1
    requires ii <= iEnd <= A.size && kk <= kEnd <= A.size
    requires Stage(C.data[..], A.data[..], B.data[..], A.size, ii, iEnd, 0, 0, A.size, 0, kk)
    modifies C.data
    ensures Stage(C.data[..], A.data[..], B.data[..], A.size, ii, iEnd, 0, 0, A.size, 0, kEnd)
  {
    var n := A.size;
    ghost var a, b := A.data[..], B.data[..];
    StageRelabel(C.data[..], a, b, n, ii, iEnd, 0, 0, n, 0, kk, ii, iEnd, 0, 0, kEnd, 0, kk);
    var jj := 0;
    while jj < n
      invariant Stage(C.data[..], a, b, n, ii, iEnd, Min(jj, n), Min(jj, n), kEnd, 0, kk)
      decreases n - jj
    {
      var jEnd := TileEnd(jj, tileSize, n);
      StageRelabel(C.data[..], a, b, n, ii, iEnd, jj, jj, kEnd, 0, kk, ii, iEnd, jj, jEnd, kEnd, kk, kk);
      ghost var before := C.data[..];
      StageTile(before, a, b, n, ii, iEnd, jj, jEnd, kEnd, kk, kk);
      MultiplyTileIKJ(A, B, C, ii, iEnd, kk, kEnd, jj, jEnd);
      StageStep(before, C.data[..], a, b, n, ii, iEnd, jj, jEnd, kEnd, kk, kk, kEnd);
      StageRelabel(C.data[..], a, b, n, ii, iEnd, jj, jEnd, kEnd, kEnd, kk, ii, iEnd, jEnd, jEnd, kEnd, 0, kk);
      assert Min(jj + tileSize, n) == jEnd;
      jj := jj + tileSize;
    }
    StageRelabel(C.data[..], a, b, n, ii, iEnd, n, n, kEnd, 0, kk, ii, iEnd, 0, 0, n, 0, kEnd);
  }

  /**
   * The IKJ-tiled kernel: zero C, then visit tiles in (ii, kk, jj) order,
   * each tile clamped at the matrix edge.
   */
  method CacheAwareMultiplyTiled(A: Matrix, B: Matrix, C: Matrix, tileSize: nat)
    requires Conformable(A, B, C)
    requires tileSize >= 1
    modifies C.data
    ensures C.data[..] == Product(A.data[..], B.data[..], A.size)
  {
    var n := A.size;
    ghost var a, b := A.data[..], B.data[..];
    ZeroFill(C);
    ZeroBlock(C.data[..], a, b, n);
    var ii := 0;
    while ii < n
      invariant Stage(C.data[..], a, b, n, Min(ii, n), Min(ii, n), 0, 0, n, 0, 0)
      decreases n - ii
    {
      var iEnd := TileEnd(ii, tileSize, n);
      StageRelabel(C.data[..], a, b, n, ii, ii, 0, 0, n, 0, 0, ii, iEnd, 0, 0, n, 0, 0);
      var kk := 0;
      while kk < n
        invariant Stage(C.data[..], a, b, n, ii, iEnd, 0, 0, n, 0, Min(kk, n))
        decreases n - kk
      {
        var kEnd := TileEnd(kk, tileSize, n);
        MultiplyPanelIKJ(A, B, C, ii, iEnd, kk, kEnd, tileSize);
        assert Min(kk + tileSize, n) == kEnd;
        kk := kk + tileSize;
      }
      StageRelabel(C.data[..], a, b, n, ii, iEnd, 0, 0, n, 0, n, iEnd, iEnd, 0, 0, n, 0, 0);
      assert Min(ii + tileSize, n) == iEnd;
      ii := ii + tileSize;
    }
    StageTile(C.data[..], a, b, n, n, n, 0, 0, n, 0, 0);
    ProductFromEntries(C.data[..], a, b, n);
  }

  function Min(x: nat, y: nat): nat {
    if x < y then x else y
  }
}
