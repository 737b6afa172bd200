/**
 * Algebraic facts about the product every kernel computes, worked examples,
 * and the benchmark's cross-check: each tiled result is accepted by the
 * verifier against the naive one.
 */
module Properties {
  import opened Matrices
  import opened Kernels
  import opened Verifier

  /** The n-by-n identity matrix, row-major. */
  ghost function Identity(n: nat): seq<int> {
    seq(n * n, p requires 0 <= p < n * n => if p / n == p % n then 1 else 0)
  }

  /** The n-by-n zero matrix, row-major. */
  ghost function Zeros(n: nat): seq<int> {
    seq(n * n, p => 0)
  }

  /** Element (k, j) of the identity is 1 on the diagonal and 0 elsewhere. */
  lemma IdentityAt(n: nat, k: nat, j: nat)
    requires k < n && j < n
    ensures |Identity(n)| == n * n
    ensures At(Identity(n), n, k, j) == if k == j then 1 else 0
  {
    IndexInRange(n, k, j);
    FlatJoin(n, k, j);
  }

  /** Against the identity, the partial dot product up to m picks out A(i, j) once j < m. */
  lemma {:induction false} DotWithIdentity(a: seq<int>, n: nat, i: nat, j: nat, m: nat)
    requires |a| == n * n && i < n && j < n && m <= n
    ensures |Identity(n)| == n * n
    ensures PartialDot(a, Identity(n), n, i, j, m) == if j < m then At(a, n, i, j) else 0
  {
    if m > 0 {
      DotWithIdentity(a, n, i, j, m - 1);
      IdentityAt(n, m - 1, j);
    }
  }

  /** Multiplying by the identity on the right gives back the left operand. */
  lemma ProductWithIdentity(a: seq<int>, n: nat)
    requires |a| == n * n
    ensures |Identity(n)| == n * n
    ensures Product(a, Identity(n), n) == a
  {
    forall i: nat, j: nat | i < n && j < n
      ensures At(a, n, i, j) == PartialDot(a, Identity(n), n, i, j, n)
    {
      DotWithIdentity(a, n, i, j, n);
    }
    ProductFromEntries(a, a, Identity(n), n);
  }

  /** Every partial dot product against the zero matrix is zero. */
  lemma {:induction false} DotWithZeros(a: seq<int>, n: nat, i: nat, j: nat, m: nat)
    requires |a| == n * n && i < n && j < n && m <= n
    ensures PartialDot(a, Zeros(n), n, i, j, m) == 0
  {
    if m > 0 {
      DotWithZeros(a, n, i, j, m - 1);
      IndexInRange(n, m - 1, j);
    }
  }

  /** Multiplying by the zero matrix gives exactly the zero matrix. */
  lemma ProductWithZeros(a: seq<int>, n: nat)
    requires |a| == n * n
    ensures Product(a, Zeros(n), n) == Zeros(n)
  {
    forall i: nat, j: nat | i < n && j < n
      ensures At(Zeros(n), n, i, j) == PartialDot(a, Zeros(n), n, i, j, n)
    {
      IndexInRange(n, i, j);
      DotWithZeros(a, n, i, j, n);
    }
    ProductFromEntries(Zeros(n), a, Zeros(n), n);
  }

  /** [[1, 2], [3, 4]] times [[5, 6], [7, 8]] is [[19, 22], [43, 50]]. */
  lemma ProductExample2x2()
    ensures Product([1, 2, 3, 4], [5, 6, 7, 8], 2) == [19, 22, 43, 50]
  {
    var a, b := [1, 2, 3, 4], [5, 6, 7, 8];
    var c := Product(a, b, 2);
    assert c[0] == PartialDot(a, b, 2, 0, 0, 2) == 1 * 5 + 2 * 7;
    assert c[1] == PartialDot(a, b, 2, 0, 1, 2) == 1 * 6 + 2 * 8;
    assert c[2] == PartialDot(a, b, 2, 1, 0, 2) == 3 * 5 + 4 * 7;
    assert c[3] == PartialDot(a, b, 2, 1, 1, 2) == 3 * 6 + 4 * 8;
  }

  /** [[7]] times [[6]] is [[42]]. */
  lemma ProductExample1x1()
    ensures Product([7], [6], 1) == [42]
  {
    assert Product([7], [6], 1)[0] == PartialDot([7], [6], 1, 0, 0, 1) == 42;
  }

  /**
   * The benchmark's correctness check: the naive, IJK-tiled and IKJ-tiled
   * kernels run on the same operands, and the verifier accepts both tiled
   * results against the naive one under any non-negative tolerance.
   */
  method CrossCheck(A: Matrix, B: Matrix, tileSize: nat, tolerance: int) returns (cacheOk: bool, tiledOk: bool)
    requires A.Valid() && B.Valid() && A.size == B.size
    requires tileSize >= 1 && tolerance >= 0
    ensures cacheOk && tiledOk
  {
    var cNaive := new Matrix(A.size);
    var cCache := new Matrix(A.size);
    var cTiled := new Matrix(A.size);
    NaiveMultiply(A, B, cNaive);
    CacheAwareMultiply(A, B, cCache, tileSize);
    CacheAwareMultiplyTiled(A, B, cTiled, tileSize);
    WithinToleranceReflexive(cNaive.data[..], cCache.data[..], tolerance);
    WithinToleranceReflexive(cNaive.data[..], cTiled.data[..], tolerance);
    var cacheMismatch, tiledMismatch;
    cacheOk, cacheMismatch := VerifyResult(cNaive, cCache, tolerance);
    tiledOk, tiledMismatch := VerifyResult(cNaive, cTiled, tolerance);
  }
}
