/**
 * Tile-boundary arithmetic shared by both blocked kernels: the tile origins
 * 0, t, 2t, ... below n, each tile clamped at the matrix edge.
 */
module Tiling {

  /** End of the tile that starts at origin: origin + t, clamped to n. */
  function TileEnd(origin: nat, t: nat, n: nat): (e: nat)
    requires t >= 1 && origin < n
    ensures origin < e <= n
    ensures e - origin <= t
    ensures e < n ==> e == origin + t
    ensures origin + t <= n ==> e == origin + t
  {
    if origin + t < n then origin + t else n
  }

  /** How many of the tiles at origins from, from + t, from + 2t, ... below n contain x. */
  function CoverCount(from: nat, t: nat, n: nat, x: nat): nat
    requires t >= 1
    decreases n - from
  {
    if from >= n then 0
    else (if from <= x < TileEnd(from, t, n) then 1 else 0) + CoverCount(from + t, t, n, x)
  }

  /** The tiles from origin `from` onwards cover each x in [from, n) exactly once and nothing else. */
  lemma {:induction false} CoverFrom(from: nat, t: nat, n: nat, x: nat)
    requires t >= 1
    ensures CoverCount(from, t, n, x) == if from <= x < n then 1 else 0
    decreases n - from
  {
    if from < n {
      CoverFrom(from + t, t, n, x);
    }
  }

  /**
   * For every tile size t >= 1 (dividing n or not, below n or not), the
   * clamped tiles at origins 0, t, 2t, ... partition [0, n): every index
   * below n lies in exactly one tile, and no index at or above n lies in any.
   */
  lemma TilesPartition(t: nat, n: nat, x: nat)
    requires t >= 1
    ensures x < n ==> CoverCount(0, t, n, x) == 1
    ensures x >= n ==> CoverCount(0, t, n, x) == 0
  {
    CoverFrom(0, t, n, x);
  }
}
