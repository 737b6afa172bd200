/**
 * The result verifier: two matrices are accepted as equal when they have the
 * same size and every pair of corresponding elements differs by at most the
 * tolerance. The scan stops at the first pair that does not.
 */
module Verifier {
  import opened Matrices

  datatype Option<T> = None | Some(value: T)

  function Abs(x: int): nat {
    if x < 0 then -x else x
  }

  /** Every pair of corresponding elements of c1 and c2 differs by at most tolerance. */
  ghost predicate WithinTolerance(c1: seq<int>, c2: seq<int>, tolerance: int)
    requires |c1| == |c2|
  {
    forall p :: 0 <= p < |c1| ==> Abs(c1[p] - c2[p]) <= tolerance
  }

  /** p is the first offset at which c1 and c2 differ by more than tolerance. */
  ghost predicate FirstMismatch(c1: seq<int>, c2: seq<int>, tolerance: int, p: nat)
    requires |c1| == |c2|
  {
    && p < |c1|
    && Abs(c1[p] - c2[p]) > tolerance
    && forall q :: 0 <= q < p ==> Abs(c1[q] - c2[q]) <= tolerance
  }

  /**
   * Compares C1 and C2. The result is false when the sizes differ; otherwise
   * it is true exactly when all elements agree within tolerance, and when it
   * is false the position of the first disagreement is reported as well.
   */
  method VerifyResult(C1: Matrix, C2: Matrix, tolerance: int) returns (ok: bool, mismatch: Option<nat>)
    requires C1.Valid() && C2.Valid()
    ensures C1.size != C2.size ==> !ok && mismatch == None
    ensures C1.size == C2.size ==> (ok <==> WithinTolerance(C1.data[..], C2.data[..], tolerance))
    ensures mismatch.Some? <==> C1.size == C2.size && !ok
    ensures mismatch.Some? ==> C1.size == C2.size && FirstMismatch(C1.data[..], C2.data[..], tolerance, mismatch.value)
  {
    if C1.size != C2.size {
      return false, None;
    }
    var total := C1.size * C1.size;
    ghost var c1, c2 := C1.data[..], C2.data[..];
    assert total == |c1| == |c2|;
    var i := 0;
    while i < total
      invariant 0 <= i <= total
      invariant forall p :: 0 <= p < i ==> Abs(c1[p] - c2[p]) <= tolerance
    {
      assert C1.data[i] == c1[i] && C2.data[i] == c2[i];
      if Abs(C1.data[i] - C2.data[i]) > tolerance {
        return false, Some(i);
      }
      i := i + 1;
    }
    return true, None;
  }

  /** Any matrix agrees with itself under every non-negative tolerance. */
  lemma WithinToleranceReflexive(c1: seq<int>, c2: seq<int>, tolerance: int)
    requires c1 == c2 && tolerance >= 0
    ensures WithinTolerance(c1, c2, tolerance)
  {
  }

  /** A negative tolerance rejects every pair of non-empty buffers, even a buffer and itself. */
  lemma NegativeToleranceRejects(c1: seq<int>, c2: seq<int>, tolerance: int)
    requires |c1| == |c2| > 0 && tolerance < 0
    ensures !WithinTolerance(c1, c2, tolerance) && FirstMismatch(c1, c2, tolerance, 0)
  {
  }
}
