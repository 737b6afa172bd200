/**
 * Dense square matrices stored row-major in one flat buffer, and the exact
 * arithmetic that every multiplication kernel is specified against.
 *
 * Element (i, j) of an n-by-n matrix lives at offset i * n + j. Elements are
 * mathematical integers, so sums may be reassociated freely.
 */
module Matrices {

  /** An n-by-n matrix: its size and its row-major buffer of n * n elements. */
  class Matrix {
    const size: nat
    const data: array<int>

    /** The buffer always holds exactly size * size elements. */
    ghost predicate Valid() {
      data.Length == size * size
    }

    /** Allocates a matrix whose elements are not yet initialised. */
    constructor (n: nat)
      ensures Valid() && size == n && fresh(data)
    {
      size := n;
      data := new int[n * n];
    }
  }

  /** Two kernel operands and an output of one common size, the output not sharing a buffer with either operand. */
  ghost predicate Conformable(A: Matrix, B: Matrix, C: Matrix) {
    && A.Valid() && B.Valid() && C.Valid()
    && A.size == B.size == C.size
    && C.data != A.data && C.data != B.data
  }

  // ---------------------------------------------------------------------
  // Index arithmetic of the row-major layout
  // ---------------------------------------------------------------------

  lemma MulMono(x: nat, y: nat, n: nat)
    requires x <= y
    ensures x * n <= y * n
  {
  }

  /** Every cell index i * n + j of an n-by-n matrix lies in [0, n * n). */
  lemma IndexInRange(n: nat, i: nat, j: nat)
    requires i < n && j < n
    ensures 0 <= i * n + j < n * n
  {
    MulMono(i + 1, n, n);
  }

  /** Cell (i, j) of an n-by-n matrix M lies inside M's buffer. */
  lemma CellInBuffer(M: Matrix, n: nat, i: nat, j: nat)
    requires M.Valid() && M.size == n && i < n && j < n
    ensures 0 <= i * n + j < M.data.Length
  {
    IndexInRange(n, i, j);
  }

  /** The offset i * n + j determines the row i and the column j. */
  lemma FlatJoin(n: nat, i: nat, j: nat)
    requires j < n
    ensures (i * n + j) / n == i && (i * n + j) % n == j
  {
    var q, r := (i * n + j) / n, (i * n + j) % n;
    assert q * n + r == i * n + j;
    if q < i {
      MulMono(q + 1, i, n);
    } else if q > i {
      MulMono(i + 1, q, n);
    }
  }

  /** Every offset p in [0, n * n) is the offset of the cell (p / n, p % n). */
  lemma FlatSplit(n: nat, p: nat)
    requires p < n * n
    ensures p / n < n && p % n < n && (p / n) * n + p % n == p
  {
    if p / n >= n {
      MulMono(n, p / n, n);
    }
  }

  /** Element (i, j) of the row-major buffer c. */
  function At(c: seq<int>, n: nat, i: nat, j: nat): int
    requires |c| == n * n && i < n && j < n
  {
    IndexInRange(n, i, j);
    c[i * n + j]
  }

  // ---------------------------------------------------------------------
  // The product, in exact arithmetic
  // ---------------------------------------------------------------------

  /** The sum over k in [0, m) of A(i, k) * B(k, j): the dot product of row i of a with column j of b, cut off at m. */
  ghost function PartialDot(a: seq<int>, b: seq<int>, n: nat, i: nat, j: nat, m: nat): int
    requires |a| == n * n && |b| == n * n && i < n && j < n && m <= n
  {
    if m == 0 then 0
    else PartialDot(a, b, n, i, j, m - 1) + At(a, n, i, m - 1) * At(b, n, m - 1, j)
  }

  /** Element p of the row-major product of a and b. */
  ghost function ProductCell(a: seq<int>, b: seq<int>, n: nat, p: nat): int
    requires |a| == n * n && |b| == n * n && p < n * n
  {
    FlatSplit(n, p);
    PartialDot(a, b, n, p / n, p % n, n)
  }

  /** The row-major product of the n-by-n matrices a and b. */
  ghost function Product(a: seq<int>, b: seq<int>, n: nat): seq<int>
    requires |a| == n * n && |b| == n * n
  {
    seq(n * n, p requires 0 <= p < n * n => ProductCell(a, b, n, p))
  }

  /** Cell (i, j) of the product is the full dot product of row i of a with column j of b. */
  lemma ProductAt(a: seq<int>, b: seq<int>, n: nat, i: nat, j: nat)
    requires |a| == n * n && |b| == n * n && i < n && j < n
    ensures |Product(a, b, n)| == n * n
    ensures At(Product(a, b, n), n, i, j) == PartialDot(a, b, n, i, j, n)
  {
    IndexInRange(n, i, j);
    FlatJoin(n, i, j);
  }

  // ---------------------------------------------------------------------
  // Partial results: what a kernel has accumulated so far
  // ---------------------------------------------------------------------

  /**
   * Every cell (i, j) with i in [r0, r1) and j in [c0, c1) holds the partial
   * dot product over k in [0, m).
   */
  ghost predicate PartialBlock(c: seq<int>, a: seq<int>, b: seq<int>, n: nat,
                               r0: nat, r1: nat, c0: nat, c1: nat, m: nat)
    requires |c| == n * n && |a| == n * n && |b| == n * n
    requires r1 <= n && c1 <= n && m <= n
  {
    forall i: nat, j: nat :: r0 <= i < r1 && c0 <= j < c1 ==> At(c, n, i, j) == PartialDot(a, b, n, i, j, m)
  }

  /** c and d hold the same element in every cell outside rows [r0, r1) x columns [c0, c1). */
  ghost predicate AgreeOutside(c: seq<int>, d: seq<int>, n: nat, r0: nat, r1: nat, c0: nat, c1: nat)
    requires |c| == n * n && |d| == n * n
  {
    forall i: nat, j: nat :: i < n && j < n && !(r0 <= i < r1 && c0 <= j < c1) ==> At(c, n, i, j) == At(d, n, i, j)
  }

  /** A block of partial sums survives a change made only in a tile disjoint from it. */
  lemma KeepBlock(c: seq<int>, d: seq<int>, a: seq<int>, b: seq<int>, n: nat,
                  r0: nat, r1: nat, c0: nat, c1: nat, m: nat,
                  tr0: nat, tr1: nat, tc0: nat, tc1: nat)
    requires |c| == n * n && |d| == n * n && |a| == n * n && |b| == n * n
    requires r1 <= n && c1 <= n && m <= n
    requires r1 <= tr0 || tr1 <= r0 || c1 <= tc0 || tc1 <= c0
    requires PartialBlock(c, a, b, n, r0, r1, c0, c1, m)
    requires AgreeOutside(c, d, n, tr0, tr1, tc0, tc1)
    ensures PartialBlock(d, a, b, n, r0, r1, c0, c1, m)
  {
    forall i: nat, j: nat | r0 <= i < r1 && c0 <= j < c1
      ensures At(d, n, i, j) == PartialDot(a, b, n, i, j, m)
    {
      assert At(c, n, i, j) == At(d, n, i, j);
    }
  }

  /**
   * Progress of a cell-by-cell sweep over rows [r0, r1) x columns [c0, c1) in
   * row-major order that has reached cell (i, j): the cells before (i, j)
   * hold the partial dot product up to hi, the others the one up to lo.
   */
  ghost predicate CellsDone(c: seq<int>, a: seq<int>, b: seq<int>, n: nat,
                            r0: nat, r1: nat, c0: nat, c1: nat, lo: nat, hi: nat, i: nat, j: nat)
    requires |c| == n * n && |a| == n * n && |b| == n * n
    requires r1 <= n && c1 <= n && lo <= hi <= n
  {
    forall r: nat, s: nat :: r0 <= r < r1 && c0 <= s < c1 ==>
      At(c, n, r, s) == PartialDot(a, b, n, r, s, if r < i || (r == i && s < j) then hi else lo)
  }

  /** Finishing cell (i, j), and changing nothing else, moves the sweep on to the next column. */
  lemma CellsDoneStep(c: seq<int>, d: seq<int>, a: seq<int>, b: seq<int>, n: nat,
                      r0: nat, r1: nat, c0: nat, c1: nat, lo: nat, hi: nat, i: nat, j: nat)
    requires |c| == n * n && |d| == n * n && |a| == n * n && |b| == n * n
    requires r1 <= n && c1 <= n && lo <= hi <= n
    requires r0 <= i < r1 && c0 <= j < c1
    requires CellsDone(c, a, b, n, r0, r1, c0, c1, lo, hi, i, j)
    requires AgreeOutside(c, d, n, i, i + 1, j, j + 1)
    requires At(d, n, i, j) == PartialDot(a, b, n, i, j, hi)
    ensures CellsDone(d, a, b, n, r0, r1, c0, c1, lo, hi, i, j + 1)
  {
    forall r: nat, s: nat | r0 <= r < r1 && c0 <= s < c1 && !(r == i && s == j)
      ensures At(d, n, r, s) == PartialDot(a, b, n, r, s, if r < i || (r == i && s < j + 1) then hi else lo)
    {
      assert At(c, n, r, s) == At(d, n, r, s);
    }
  }

  /** A sweep that has finished row i continues at the start of row i + 1. */
  lemma CellsDoneNextRow(c: seq<int>, a: seq<int>, b: seq<int>, n: nat,
                         r0: nat, r1: nat, c0: nat, c1: nat, lo: nat, hi: nat, i: nat)
    requires |c| == n * n && |a| == n * n && |b| == n * n
    requires r1 <= n && c1 <= n && lo <= hi <= n
    requires CellsDone(c, a, b, n, r0, r1, c0, c1, lo, hi, i, c1)
    ensures CellsDone(c, a, b, n, r0, r1, c0, c1, lo, hi, i + 1, c0)
  {
    forall r: nat, s: nat | r0 <= r < r1 && c0 <= s < c1
      ensures At(c, n, r, s) == PartialDot(a, b, n, r, s, if r < i + 1 || (r == i + 1 && s < c0) then hi else lo)
    {
      assert At(c, n, r, s) == PartialDot(a, b, n, r, s, if r < i || (r == i && s < c1) then hi else lo);
    }
  }

  /** A sweep at the first cell of a block holding lo everywhere has done nothing yet; one past the last row has done everything. */
  lemma CellsDoneEnds(c: seq<int>, a: seq<int>, b: seq<int>, n: nat,
                      r0: nat, r1: nat, c0: nat, c1: nat, lo: nat, hi: nat)
    requires |c| == n * n && |a| == n * n && |b| == n * n
    requires r0 <= r1 <= n && c1 <= n && lo <= hi <= n
    ensures PartialBlock(c, a, b, n, r0, r1, c0, c1, lo) <==> CellsDone(c, a, b, n, r0, r1, c0, c1, lo, hi, r0, c0)
    ensures PartialBlock(c, a, b, n, r0, r1, c0, c1, hi) <==> CellsDone(c, a, b, n, r0, r1, c0, c1, lo, hi, r1, c0)
  {
  }

  /**
   * Progress of a sweep over rows [r0, r1) x columns [c0, c1) that advances
   * whole row segments one k at a time and has reached row i at step k: rows
   * before i hold the partial dot product up to hi, row i the one up to k,
   * later rows the one up to lo.
   */
  ghost predicate RowsDone(c: seq<int>, a: seq<int>, b: seq<int>, n: nat,
                           r0: nat, r1: nat, c0: nat, c1: nat, lo: nat, hi: nat, i: nat, k: nat)
    requires |c| == n * n && |a| == n * n && |b| == n * n
    requires r1 <= n && c1 <= n && lo <= k <= hi <= n
  {
    forall r: nat, s: nat :: r0 <= r < r1 && c0 <= s < c1 ==>
      At(c, n, r, s) == PartialDot(a, b, n, r, s, if r < i then hi else if r == i then k else lo)
  }

  /** Extending row i from k to k + 1, and changing nothing else, advances the sweep by one step. */
  lemma RowsDoneStep(c: seq<int>, d: seq<int>, a: seq<int>, b: seq<int>, n: nat,
                     r0: nat, r1: nat, c0: nat, c1: nat, lo: nat, hi: nat, i: nat, k: nat)
    requires |c| == n * n && |d| == n * n && |a| == n * n && |b| == n * n
    requires r1 <= n && c1 <= n && lo <= k < hi <= n
    requires r0 <= i < r1
    requires RowsDone(c, a, b, n, r0, r1, c0, c1, lo, hi, i, k)
    requires AgreeOutside(c, d, n, i, i + 1, c0, c1)
    requires PartialBlock(d, a, b, n, i, i + 1, c0, c1, k + 1)
    ensures RowsDone(d, a, b, n, r0, r1, c0, c1, lo, hi, i, k + 1)
  {
    forall r: nat, s: nat | r0 <= r < r1 && c0 <= s < c1 && r != i
      ensures At(d, n, r, s) == PartialDot(a, b, n, r, s, if r < i then hi else lo)
    {
      assert At(c, n, r, s) == At(d, n, r, s);
    }
  }

  /** A sweep whose first row is at lo holds lo everywhere; one past the last row holds hi everywhere. */
  lemma RowsDoneEnds(c: seq<int>, a: seq<int>, b: seq<int>, n: nat,
                     r0: nat, r1: nat, c0: nat, c1: nat, lo: nat, hi: nat)
    requires |c| == n * n && |a| == n * n && |b| == n * n
    requires r0 <= r1 <= n && c1 <= n && lo <= hi <= n
    ensures PartialBlock(c, a, b, n, r0, r1, c0, c1, lo) <==> RowsDone(c, a, b, n, r0, r1, c0, c1, lo, hi, r0, lo)
    ensures PartialBlock(c, a, b, n, r0, r1, c0, c1, hi) <==> RowsDone(c, a, b, n, r0, r1, c0, c1, lo, hi, r1, lo)
  {
  }

  /** In a sweep that has reached row i at step k, row i holds the partial dot product up to k. */
  lemma RowsDoneCurrentRow(c: seq<int>, a: seq<int>, b: seq<int>, n: nat,
                           r0: nat, r1: nat, c0: nat, c1: nat, lo: nat, hi: nat, i: nat, k: nat)
    requires |c| == n * n && |a| == n * n && |b| == n * n
    requires r1 <= n && c1 <= n && lo <= k <= hi <= n
    requires r0 <= i < r1
    requires RowsDone(c, a, b, n, r0, r1, c0, c1, lo, hi, i, k)
    ensures PartialBlock(c, a, b, n, i, i + 1, c0, c1, k)
  {
  }

  /** A sweep that has finished row i continues with row i + 1 at lo. */
  lemma RowsDoneNextRow(c: seq<int>, a: seq<int>, b: seq<int>, n: nat,
                        r0: nat, r1: nat, c0: nat, c1: nat, lo: nat, hi: nat, i: nat)
    requires |c| == n * n && |a| == n * n && |b| == n * n
    requires r1 <= n && c1 <= n && lo <= hi <= n
    requires RowsDone(c, a, b, n, r0, r1, c0, c1, lo, hi, i, hi)
    ensures RowsDone(c, a, b, n, r0, r1, c0, c1, lo, hi, i + 1, lo)
  {
    forall r: nat, s: nat | r0 <= r < r1 && c0 <= s < c1
      ensures At(c, n, r, s) == PartialDot(a, b, n, r, s, if r < i + 1 then hi else if r == i + 1 then lo else lo)
    {
      assert At(c, n, r, s) == PartialDot(a, b, n, r, s, if r < i then hi else if r == i then hi else lo);
    }
  }

  /**
   * How far cell (r, s) has got in a tiled kernel between tiles: rows before
   * r0 are finished, rows from r1 on are untouched, and in the band of rows
   * [r0, r1) the columns before c1 are at v1, columns [c1, c2) at v2 and the
   * remaining columns at v3.
   */
  function Level(n: nat, r0: nat, r1: nat, c1: nat, c2: nat, v1: nat, v2: nat, v3: nat, r: nat, s: nat): nat {
    if r < r0 then n else if r1 <= r then 0 else if s < c1 then v1 else if s < c2 then v2 else v3
  }

  /** Every cell holds the partial dot product up to its level. */
  ghost predicate Stage(c: seq<int>, a: seq<int>, b: seq<int>, n: nat,
                        r0: nat, r1: nat, c1: nat, c2: nat, v1: nat, v2: nat, v3: nat)
    requires |c| == n * n && |a| == n * n && |b| == n * n
    requires v1 <= n && v2 <= n && v3 <= n
  {
    forall r: nat, s: nat :: r < n && s < n ==>
      At(c, n, r, s) == PartialDot(a, b, n, r, s, Level(n, r0, r1, c1, c2, v1, v2, v3, r, s))
  }

  /** Two descriptions of a stage that give every cell the same level describe the same state. */
  lemma StageRelabel(c: seq<int>, a: seq<int>, b: seq<int>, n: nat,
                     r0: nat, r1: nat, c1: nat, c2: nat, v1: nat, v2: nat, v3: nat,
                     q0: nat, q1: nat, d1: nat, d2: nat, w1: nat, w2: nat, w3: nat)
    requires |c| == n * n && |a| == n * n && |b| == n * n
    requires v1 <= n && v2 <= n && v3 <= n && w1 <= n && w2 <= n && w3 <= n
    requires Stage(c, a, b, n, r0, r1, c1, c2, v1, v2, v3)
    requires forall r: nat, s: nat :: r < n && s < n ==>
      Level(n, r0, r1, c1, c2, v1, v2, v3, r, s) == Level(n, q0, q1, d1, d2, w1, w2, w3, r, s)
    ensures Stage(c, a, b, n, q0, q1, d1, d2, w1, w2, w3)
  {
    forall r: nat, s: nat | r < n && s < n
      ensures At(c, n, r, s) == PartialDot(a, b, n, r, s, Level(n, q0, q1, d1, d2, w1, w2, w3, r, s))
    {
      assert At(c, n, r, s) == PartialDot(a, b, n, r, s, Level(n, r0, r1, c1, c2, v1, v2, v3, r, s));
    }
  }

  /** The tile [r0, r1) x [c1, c2) of a stage holds the partial dot product up to v2. */
  lemma StageTile(c: seq<int>, a: seq<int>, b: seq<int>, n: nat,
                  r0: nat, r1: nat, c1: nat, c2: nat, v1: nat, v2: nat, v3: nat)
    requires |c| == n * n && |a| == n * n && |b| == n * n
    requires v1 <= n && v2 <= n && v3 <= n && r1 <= n && c1 <= c2 <= n
    requires Stage(c, a, b, n, r0, r1, c1, c2, v1, v2, v3)
    ensures PartialBlock(c, a, b, n, r0, r1, c1, c2, v2)
  {
  }

  /** Advancing the tile of a stage to w, and changing nothing else, gives the stage with w in place of v2. */
  lemma StageStep(c: seq<int>, d: seq<int>, a: seq<int>, b: seq<int>, n: nat,
                  r0: nat, r1: nat, c1: nat, c2: nat, v1: nat, v2: nat, v3: nat, w: nat)
    requires |c| == n * n && |d| == n * n && |a| == n * n && |b| == n * n
    requires v1 <= n && v2 <= n && v3 <= n && w <= n && r1 <= n && c2 <= n
    requires Stage(c, a, b, n, r0, r1, c1, c2, v1, v2, v3)
    requires AgreeOutside(c, d, n, r0, r1, c1, c2)
    requires PartialBlock(d, a, b, n, r0, r1, c1, c2, w)
    ensures Stage(d, a, b, n, r0, r1, c1, c2, v1, w, v3)
  {
    forall r: nat, s: nat | r < n && s < n && !(r0 <= r < r1 && c1 <= s < c2)
      ensures At(d, n, r, s) == At(c, n, r, s)
    {
    }
  }

  /** A change confined to a sub-tile, after one confined to the tile, is still confined to the tile. */
  lemma AgreeOutsideTrans(c: seq<int>, d: seq<int>, e: seq<int>, n: nat,
                          r0: nat, r1: nat, c0: nat, c1: nat,
                          sr0: nat, sr1: nat, sc0: nat, sc1: nat)
    requires |c| == n * n && |d| == n * n && |e| == n * n
    requires r0 <= sr0 && sr1 <= r1 && c0 <= sc0 && sc1 <= c1
    requires AgreeOutside(c, d, n, r0, r1, c0, c1)
    requires AgreeOutside(d, e, n, sr0, sr1, sc0, sc1)
    ensures AgreeOutside(c, e, n, r0, r1, c0, c1)
  {
    forall i: nat, j: nat | i < n && j < n && !(r0 <= i < r1 && c0 <= j < c1)
      ensures At(c, n, i, j) == At(e, n, i, j)
    {
      assert At(c, n, i, j) == At(d, n, i, j);
    }
  }

  /** A buffer of zeros holds the empty partial dot product in every cell. */
  lemma ZeroBlock(c: seq<int>, a: seq<int>, b: seq<int>, n: nat)
    requires |c| == n * n && |a| == n * n && |b| == n * n
    requires forall p :: 0 <= p < |c| ==> c[p] == 0
    ensures PartialBlock(c, a, b, n, 0, n, 0, n, 0)
  {
    forall i: nat, j: nat | i < n && j < n
      ensures At(c, n, i, j) == 0
    {
      IndexInRange(n, i, j);
    }
  }

  /** Two cells of an n-by-n matrix share an offset only if they are the same cell. */
  lemma SameCell(n: nat, i: nat, j: nat, i': nat, j': nat)
    requires j < n && j' < n && i * n + j == i' * n + j'
    ensures i == i' && j == j'
  {
    FlatJoin(n, i, j);
    FlatJoin(n, i', j');
  }

  /**
   * Changing only the offsets [i * n + lo, i * n + hi) of a buffer changes
   * only the cells (i, j) with j in [lo, hi).
   */
  lemma RowSegmentFrame(c: seq<int>, d: seq<int>, n: nat, i: nat, lo: nat, hi: nat)
    requires |c| == n * n && |d| == n * n && i < n && lo <= hi <= n
    requires forall q :: 0 <= q < n * n && !(i * n + lo <= q < i * n + hi) ==> d[q] == c[q]
    ensures AgreeOutside(c, d, n, i, i + 1, lo, hi)
  {
    forall i': nat, j': nat | i' < n && j' < n && !(i <= i' < i + 1 && lo <= j' < hi)
      ensures At(c, n, i', j') == At(d, n, i', j')
    {
      IndexInRange(n, i', j');
      var q := i' * n + j';
      if i * n + lo <= q < i * n + hi {
        SameCell(n, i, q - i * n, i', j');
        assert false;
      }
      assert At(c, n, i', j') == c[q] && At(d, n, i', j') == d[q];
    }
  }

  /**
   * One step of a sweep along row i from column lo at step k: once cell
   * (i, j) is advanced to k + 1, and nothing else changes, the advanced
   * segment grows by one column.
   */
  lemma RowSegmentStep(c: seq<int>, d: seq<int>, orig: seq<int>, a: seq<int>, b: seq<int>, n: nat,
                       i: nat, lo: nat, j: nat, hi: nat, k: nat)
    requires |c| == n * n && |d| == n * n && |orig| == n * n && |a| == n * n && |b| == n * n
    requires i < n && lo <= j < hi <= n && k < n
    requires PartialBlock(c, a, b, n, i, i + 1, lo, j, k + 1)
    requires PartialBlock(c, a, b, n, i, i + 1, j, hi, k)
    requires AgreeOutside(orig, c, n, i, i + 1, lo, j)
    requires AgreeOutside(c, d, n, i, i + 1, j, j + 1)
    requires At(d, n, i, j) == PartialDot(a, b, n, i, j, k + 1)
    ensures PartialBlock(d, a, b, n, i, i + 1, lo, j + 1, k + 1)
    ensures PartialBlock(d, a, b, n, i, i + 1, j + 1, hi, k)
    ensures AgreeOutside(orig, d, n, i, i + 1, lo, j + 1)
  {
    KeepBlock(c, d, a, b, n, i, i + 1, lo, j, k + 1, i, i + 1, j, j + 1);
    KeepBlock(c, d, a, b, n, i, i + 1, j + 1, hi, k, i, i + 1, j, j + 1);
  }

  /** Offset p of a buffer whose every cell holds the full dot product holds element p of the product. */
  lemma CellOfProduct(c: seq<int>, a: seq<int>, b: seq<int>, n: nat, p: nat)
    requires |c| == n * n && |a| == n * n && |b| == n * n && p < n * n
    requires PartialBlock(c, a, b, n, 0, n, 0, n, n)
    ensures c[p] == ProductCell(a, b, n, p)
  {
    FlatSplit(n, p);
    var i, j := p / n, p % n;
    assert At(c, n, i, j) == PartialDot(a, b, n, i, j, n);
    assert At(c, n, i, j) == c[i * n + j];
  }

  /** A buffer whose every cell holds the full dot product is the product. */
  lemma ProductFromEntries(c: seq<int>, a: seq<int>, b: seq<int>, n: nat)
    requires |c| == n * n && |a| == n * n && |b| == n * n
    requires PartialBlock(c, a, b, n, 0, n, 0, n, n)
    ensures c == Product(a, b, n)
  {
    forall p | 0 <= p < n * n
      ensures c[p] == Product(a, b, n)[p]
    {
      CellOfProduct(c, a, b, n, p);
    }
  }
}
