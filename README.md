# Adaptive array (`NDArray`) — a Dafny model

The SparsityType project wraps a 2-D numeric buffer, held either as a dense
numpy grid or as a scipy sparse matrix of any format, in an `NDArray` object that
also caches optional lower and upper bounds on the number of nonzeros. This
model covers the part of `spring/core.py` that manages that object: its
three fields, the `shape` and `size` accessors, the constructors, the
`count_nz` bookkeeping step and the shape check that opens `__add__`.

- `wrappers.dfy` — `Option`, `Result`, `Outcome`. `None` stands for the
  missing buffer and the unknown bounds; `Result` and `Outcome` stand for
  the methods that raise `ValueError`.
- `layout.dfy` (module `Layouts`) — the `Layout` datatype (`Dense` row-major
  grid or `Sparse` compressed sparse row (CSR) triple, the one sparse format
  modelled). It also defines well-formedness for both
  layouts, the nonzero count (`Nonzeros`, `StoredCount`) and the element count
  (`Size`). It proves that a well-formed buffer never reports more nonzeros
  than its size.
- `ndarray.dfy` (module `Core`) — the class `NDArray` with fields `data`,
  `ub` and `lb`. `CountNzStep` is a function on a snapshot of those fields
  (`State`) that specifies `count_nz`, and the lemmas about it are proved
  there. `Invariant` is the object invariant: no buffer means both bounds
  are unknown; with a buffer, the buffer is well formed and
  `lb <= count <= ub <= size`.

Element values are `int` and "nonzero" means `!= 0`. For a CSR buffer the
count is the number of stored entries, with an explicitly stored zero
included, because the source asks scipy for its structural count
(`getnnz`). The model's invariant uses that same count. The bound fields are
modelled as `Option<nat>`: the source only ever stores counts in them.

## Model

| member | source | states |
|---|---|---|
| `Layouts.Nonzeros` | spring/core.py:41-42 | the dense count is at most the number of elements, and it is zero exactly when every element is zero |
| `Layouts.NonzerosArePositions` | spring/core.py:41-42 | the dense count equals the number of positions that hold a nonzero element |
| `Layouts.StoredCountWithinSize` | spring/core.py:21-27 | for a well-formed buffer of either layout, the size is rows*cols and the nonzero count is at most the size; for CSR this follows from the row pointers and the strictly increasing, in-range column indices |
| `Core.CountNonzeros` | spring/core.py:41-42 | the scan of a dense grid returns the number of its nonzero elements |
| `Core.CountNzStep` | spring/core.py:38-46 | counting never changes the buffer; equal known bounds mean nothing changes; it succeeds exactly when the bounds were equal or a buffer is present; a failure is the unsupported-data error and leaves every field as it was; after success both bounds are equal |
| `Core.ExactIsCount` | spring/core.py:12-13 | when the invariant holds, equal bounds are the buffer's exact nonzero count |
| `Core.CountNzIsExact` | spring/core.py:38-44 | on a valid array with a buffer, counting succeeds and leaves `lb == ub ==` the buffer's nonzero count |
| `Core.CountNzRecounts` | spring/core.py:41-44 | when the bounds are not known and equal, both become the buffer's count, whatever they held before: the number of nonzero positions of a dense grid, or the number of stored entries of a CSR matrix |
| `Core.CountNzKeepsInvariant` | spring/core.py:12-13 | counting preserves the invariant, and leaves `lb <= ub <= rows*cols` when there is a buffer |
| `Core.CountNzIdempotent` | spring/core.py:38-44 | counting twice gives the same outcome and the same fields as counting once |
| `Core.SingleEntryCounts` | spring/core.py:41-44 | a 4x4 grid that is zero except at (0,0) counts 1; the same entry stored as CSR counts 1 |
| `Core.NDArray.constructor` | spring/core.py:48-51 | a new array has no buffer and both bounds unknown, and is valid |
| `Core.NDArray.FromDense` | spring/core.py:53-57 | a fresh array whose buffer is exactly the given grid, with both bounds unknown; valid when the grid has rows*cols elements |
| `Core.NDArray.FromSparse` | spring/core.py:59-63 | a fresh array whose buffer is exactly the given CSR matrix, with both bounds unknown; valid when the matrix is well formed |
| `Core.NDArray.Shape` | spring/core.py:15-19 | fails with the not-initialized error exactly when there is no buffer, otherwise returns the buffer's `(rows, cols)` |
| `Core.NDArray.Size` | spring/core.py:21-27 | fails with the not-initialized error exactly when there is no buffer; for a well-formed buffer of either layout it is rows*cols |
| `Core.NDArray.CountNz` | spring/core.py:38-46 | the buffer is unchanged, the outcome and new fields are those of `CountNzStep`, and a valid array stays valid |
| `Core.NDArray.AddShapeGuard` | spring/core.py:74-75 | addition may proceed exactly when both operands have a buffer of equal rows and cols; it fails not-initialized exactly when either has no buffer, and fails shape-mismatch exactly when both have buffers of different shape; neither operand is changed |
| `Core.NDArray.AddShapeGuardSymmetric` | spring/core.py:74-75 | a shape mismatch is rejected in either operand order |

## Left out

- `dtype` (spring/core.py:29-36) is inspection of the backend object's type, and element types are fixed to `int` here.
- `from_obj` (spring/core.py:65-69) converts an arbitrary value with `np.array`. That is backend behaviour.
- The `NotImplemented` return of `__add__` for a non-`NDArray` operand (spring/core.py:72-73) cannot arise, because the model is statically typed.
- `THRESHOLD_DENSITY` (spring/core.py:8) is declared, but no shown code reads it.
- Everything in `__add__` after its shape check (from spring/core.py:76 on) is not part of this model: density adaptation, conversion between layouts, the addition itself and the bounds of its result. The same holds for matrix multiplication and for the numpy/scipy kernels.
- Only canonical CSR is modelled as the sparse buffer. The source accepts any scipy sparse matrix (COO, CSC, LIL and the rest), and also CSR with duplicate or unsorted column indices. For all of these, `size` returns rows*cols and `count_nz` returns the stored-entry count. `WellFormed` rejects such buffers, so the bound `lb <= ub <= size` (`StoredCountWithinSize`, `CountNzKeepsInvariant`) is proved only for canonical CSR. With duplicates it can fail in the source: a 1x1 matrix with row pointers `[0, 2]` and column indices `[0, 0]` counts 2.
- A buffer that is neither a numpy array nor a scipy sparse matrix cannot be represented. For one, `count_nz` raises its unsupported-type error and `size` raises its not-initialized error. The model only reaches those error paths when there is no buffer at all.
- Floating-point elements and dense arrays that are not 2-D are not modelled.
- `Core.NDArray.AddShapeGuard`: the source compares numpy shape tuples, which can have any number of dimensions; here both shapes are `(rows, cols)` pairs.
