# Matrix-multiply kernels and result verifier

This project models the computational core of a small matrix-multiplication
benchmark and proves it correct. The core has four parts:

- the naive triple loop `naive_multiply`;
- the IJK-tiled kernel `cache_aware_multiply`;
- the IKJ-tiled kernel `cache_aware_multiply_tiled`;
- the tolerance check `verify_result`, which the benchmark uses to compare each
  tiled result against the naive one.

The repository carries two byte-identical copies of this code:
`matrix_multiply.c` and `risc-v-matrix-multiply/matrix_multiply.c`. The model
is written once and applies to both, line for line. The table below cites
mostly the first copy. A few rows cite the second, to show that the same
lines are covered there.

How the code is modelled:

- **Matrix.** A `Matrix` (`Matrices.Matrix`) is a class with the struct's two
  fields, `size` and `data`. `data` is an `array<int>` of `size * size`
  elements in row-major order. The kernels never reassign either field, so
  both are `const`; only the elements of `C.data` change.
- **Elements.** Elements are `int` instead of `double`. With exact arithmetic,
  the sums the three kernels form in different orders are equal. So each
  kernel is proved to leave exactly the same matrix in `C`: the one given by
  the specification function `Matrices.Product`.
- **Specification.** `Matrices.PartialDot(a, b, n, i, j, m)` is the sum over
  `k` in `[0, m)` of `A(i, k) * B(k, j)`. `Product` is the row-major matrix
  of the full dot products.
- **Kernels.** Every kernel is an imperative method with `modifies C.data`.
  Its loops carry invariants that say how far each cell of `C` has
  progressed.
  - The innermost loops of the source are separate methods:
    `AccumulateCellInPlace`, `AccumulateCell` and `AccumulateRowSegment`.
  - The per-tile loops are separate methods too: `MultiplyTileIJK` and
    `MultiplyTileIKJ`.
  - In each tiled kernel, one loop level over tiles has its own method:
    `MultiplyOutputTileIJK` for the kk loop, `MultiplyPanelIKJ` for the jj loop.
  - The loop nest, the order of the loops and the statements executed are
    those of the source.
- **Result verifier.** `verify_result` returns the C integers 0 or 1. Here it
  returns a `bool`, together with the position of the first mismatch, which
  the source only prints.
- **No I/O.** The core does no input or output. Allocation, timing and
  printing belong to the benchmark driver, which is not modelled.

## Model

| member | source | states |
|---|---|---|
| Matrices.Matrix.constructor | matrix_multiply.c:24-27 | a new matrix of size n has a data buffer of exactly n * n elements |
| Matrices.IndexInRange | matrix_multiply.c:120 | every row-major index i * n + j with i, j < n lies in [0, n * n), so every element access of the kernels stays in the buffer |
| Matrices.ProductAt | risc-v-matrix-multiply/matrix_multiply.c:117-123 | element (i, j) of the product is the full dot product of row i of A and column j of B |
| Matrices.ProductFromEntries | matrix_multiply.c:117-123 | a buffer in which every cell (i, j) holds the full dot product is exactly the product matrix |
| Matrices.CellsDoneStep | matrix_multiply.c:117-118 | in a row-major sweep of cells, finishing cell (i, j) while changing nothing else advances the sweep to (i, j + 1): earlier cells are finished, later ones untouched |
| Matrices.CellsDoneNextRow | matrix_multiply.c:145-146 | a sweep that has finished every column of row i continues at the first column of row i + 1 |
| Matrices.RowsDoneStep | matrix_multiply.c:176-177 | in the IKJ order, extending row i's segment from k to k + 1 while changing nothing else advances the sweep by one k |
| Matrices.RowsDoneNextRow | risc-v-matrix-multiply/matrix_multiply.c:176-177 | an IKJ sweep that has taken row i through every k continues with row i + 1 at the tile's first k |
| Matrices.StageStep | matrix_multiply.c:136-138 | between tiles, advancing one tile's partial sums while changing nothing outside the tile leaves every other cell at its previous level |
| Matrices.RowSegmentStep | matrix_multiply.c:179-181 | one step of the IKJ inner loop grows the updated part of row i's segment by one column and keeps the rest of the matrix |
| Tiling.TileEnd | matrix_multiply.c:140-142 | a clamped tile end satisfies origin < end <= n and end - origin <= tile_size; it equals origin + tile_size unless clamped at n |
| Tiling.CoverFrom | risc-v-matrix-multiply/matrix_multiply.c:171-173 | the clamped tiles from a given origin onwards cover each index in [origin, n) exactly once and nothing else |
| Tiling.TilesPartition | matrix_multiply.c:136-142 | for every tile_size >= 1, the clamped tiles at 0, t, 2t, ... partition [0, n): each index below n lies in exactly one tile, none at or above n lies in any |
| Kernels.ZeroFill | matrix_multiply.c:112-114 | afterwards every one of the n * n elements of C is zero |
| Kernels.AccumulateCellInPlace | matrix_multiply.c:119-121 | cell (i, j), starting at zero, ends holding the full dot product; no other cell changes |
| Kernels.NaiveMultiply | matrix_multiply.c:108-124 | afterwards C is the product of A and B, whatever C held before; only C is written |
| Kernels.AccumulateCell | matrix_multiply.c:147-151 | the scalar seeded from C(i, j) and written back once moves C(i, j) from the partial dot product up to kk to the one up to k_end; no other cell changes |
| Kernels.MultiplyTileIJK | matrix_multiply.c:145-153 | every cell of the tile moves from the partial dot product up to kk to the one up to k_end; nothing outside the tile changes |
| Kernels.MultiplyOutputTileIJK | matrix_multiply.c:138-153 | partial sums are carried in C across the kk tiles: the (ii, jj) tile goes from no partial sum to the full dot product; nothing outside the tile changes |
| Kernels.CacheAwareMultiply | matrix_multiply.c:127-157 | for every tile_size >= 1, afterwards C is the product of A and B, the same matrix the naive kernel leaves |
| Kernels.AccumulateRowSegment | matrix_multiply.c:177-181 | with A(i, k) read once, row i's segment [jj, j_end) moves from the partial dot product up to k to the one up to k + 1; nothing else changes |
| Kernels.MultiplyTileIKJ | matrix_multiply.c:176-183 | every cell of the tile moves from the partial dot product up to kk to the one up to k_end; nothing outside the tile changes |
| Kernels.MultiplyPanelIKJ | matrix_multiply.c:169-184 | across the whole row band [ii, i_end), the jj tiles move every cell from the partial dot product up to kk to the one up to k_end; rows outside the band keep their state |
| Kernels.CacheAwareMultiplyTiled | matrix_multiply.c:160-187 | for every tile_size >= 1, afterwards C is the product of A and B, the same matrix the naive kernel leaves |
| Verifier.VerifyResult | matrix_multiply.c:230-244 | false when the sizes differ; otherwise true exactly when every pair of elements differs by at most the tolerance; when false on equal sizes, the reported position is the first offending one |
| Verifier.WithinToleranceReflexive | matrix_multiply.c:236-237 | any matrix is accepted against an identical one under every non-negative tolerance |
| Verifier.NegativeToleranceRejects | matrix_multiply.c:237 | a negative tolerance rejects every non-empty pair, even identical ones, at position 0 |
| Properties.ProductWithIdentity | matrix_multiply.c:117-123 | the product computed by the kernels with the identity on the right gives back the left operand |
| Properties.ProductWithZeros | matrix_multiply.c:117-123 | the product computed by the kernels with the zero matrix on the right is the zero matrix |
| Properties.ProductExample2x2 | matrix_multiply.c:119-120 | [[1, 2], [3, 4]] times [[5, 6], [7, 8]] is [[19, 22], [43, 50]] |
| Properties.ProductExample1x1 | matrix_multiply.c:119-120 | [[7]] times [[6]] is [[42]] |
| Properties.CrossCheck | matrix_multiply.c:355-367 | the benchmark's check passes for every operand pair, tile size >= 1 and tolerance >= 0: the verifier accepts both tiled results against the naive one |

## Left out

- `vector_multiply` (lines 189-227 of both copies) is not part of this model. It consists of RISC-V vector intrinsics whose semantics are not visible, and it is compiled only with `USE_VECTOR`.
- `create_matrix`, `free_matrix`, `initialize_matrix`, `print_matrix_sample`, `get_time_diff`, `benchmark_multiplication` and `main` are not part of this model. They cover allocation and its failure path, the `rand` fill, printing, timing, argument parsing and reporting. Allocation is `new Matrix(n)`, and `CrossCheck` stands in for the benchmark's comparison of the three results.
- Elements are mathematical integers, not IEEE-754 doubles. Rounding, NaN and the `1e-10` tolerance used by the benchmark are therefore not modelled; in exact arithmetic the three kernels agree exactly.
- Kernels.CacheAwareMultiply: C `int` overflow of `ii += tile_size` and of `n * n` is not modelled; indices are unbounded integers.
- Kernels.CacheAwareMultiplyTiled: C `int` overflow of `ii += tile_size` and of `n * n` is not modelled; indices are unbounded integers.
- Kernels.NaiveMultiply: requires B and C to have A's size and C's buffer to be distinct from A's and B's. The source reads only `A->size`; the benchmark always passes three distinct matrices of one size. Aliased or mis-sized arguments are outside the model.
- Kernels.CacheAwareMultiply: requires `tile_size >= 1`. With a tile size of 0 or less the source loop would not terminate, and `main` rejects such a value before calling the kernels.
- Kernels.CacheAwareMultiplyTiled: requires `tile_size >= 1`, for the same reason.
- Verifier.VerifyResult: the `printf` diagnostic on a mismatch is replaced by returning the mismatch position.
