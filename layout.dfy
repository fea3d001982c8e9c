/**
 * The two buffer layouts an adaptive array can hold: a dense row-major grid
 * and a compressed sparse row (CSR) matrix, together with the nonzero
 * counting that the array's bookkeeping relies on.
 */
module Layouts {

  /** A 2-D buffer. Element values are integers; "nonzero" means `!= 0`. */
  datatype Layout =
    | Dense(rows: nat, cols: nat, elems: seq<int>)
    | Sparse(rows: nat, cols: nat, rowPtr: seq<nat>, colIdx: seq<nat>, vals: seq<int>)

  /** Column indices `s[lo..hi]` of one CSR row are strictly increasing. */
  predicate StrictlyIncreasing(s: seq<nat>, lo: nat, hi: nat)
    requires lo <= hi <= |s|
  {
    forall k :: lo <= k && k + 1 < hi ==> s[k] < s[k + 1]
  }

  /** Row `r` of a CSR structure: its pointers are ordered and in range, its columns increase. */
  predicate RowOrdered(rowPtr: seq<nat>, colIdx: seq<nat>, r: nat)
    requires r + 1 < |rowPtr|
  {
    rowPtr[r] <= rowPtr[r + 1] <= |colIdx| && StrictlyIncreasing(colIdx, rowPtr[r], rowPtr[r + 1])
  }

  /**
   * A dense grid holds exactly rows*cols elements. A CSR matrix has one row
   * pointer per row plus one, starting at 0, non-decreasing, ending at the
   * number of stored entries; every column index is in range, and within a
   * row the column indices are strictly increasing.
   */
  predicate WellFormed(l: Layout) {
    match l
    case Dense(rows, cols, elems) => |elems| == rows * cols
    case Sparse(rows, cols, rowPtr, colIdx, vals) =>
      && |rowPtr| == rows + 1
      && rowPtr[0] == 0
      && rowPtr[rows] == |vals| == |colIdx|
      && (forall k :: 0 <= k < |colIdx| ==> colIdx[k] < cols)
      && (forall r :: 0 <= r < rows ==> RowOrdered(rowPtr, colIdx, r))
  }

  /** Number of elements of `s` that are not zero. */
  function Nonzeros(s: seq<int>): (n: nat)
    ensures n <= |s|
    ensures n == 0 <==> forall i :: 0 <= i < |s| ==> s[i] == 0
  {
    if |s| == 0 then 0
    else Nonzeros(s[..|s| - 1]) + (if s[|s| - 1] != 0 then 1 else 0)
  }

  /** The positions of the nonzero elements of `s`. */
  ghost function NonzeroPositions(s: seq<int>): set<nat> {
    set i: nat | i < |s| && s[i] != 0
  }

  /** Counting nonzeros agrees with the number of nonzero positions. */
  lemma {:induction false} NonzerosArePositions(s: seq<int>)
    ensures Nonzeros(s) == |NonzeroPositions(s)|
  {
    if |s| > 0 {
      var p := s[..|s| - 1];
      NonzerosArePositions(p);
      var last: nat := |s| - 1;
      assert last !in NonzeroPositions(p);
      if s[last] != 0 {
        assert NonzeroPositions(s) == NonzeroPositions(p) + {last};
      } else {
        assert NonzeroPositions(s) == NonzeroPositions(p);
      }
    }
  }

  /**
   * The count the array reports for a buffer: the nonzero elements of a
   * dense grid, or the stored entries of a CSR matrix (an explicitly stored
   * zero is counted, as a structural count does).
   */
  function StoredCount(l: Layout): nat {
    match l
    case Dense(_, _, elems) => Nonzeros(elems)
    case Sparse(_, _, _, _, vals) => |vals|
  }

  /** The element count of a buffer: the grid length, or rows*cols for CSR. */
  function Size(l: Layout): nat {
    match l
    case Dense(_, _, elems) => |elems|
    case Sparse(rows, cols, _, _, _) => rows * cols
  }

  /** In a strictly increasing run, each index lies at least its offset above 0. */
  lemma {:induction false} IncreasingOffset(s: seq<nat>, lo: nat, hi: nat, k: nat)
    requires lo <= k < hi <= |s|
    requires StrictlyIncreasing(s, lo, hi)
    ensures s[k] >= k - lo
    decreases k - lo
  {
    if k > lo {
      IncreasingOffset(s, lo, hi, k - 1);
    }
  }

  /** A CSR row with strictly increasing in-range columns has at most `cols` entries. */
  lemma RowAtMostCols(s: seq<nat>, lo: nat, hi: nat, cols: nat)
    requires lo <= hi <= |s|
    requires StrictlyIncreasing(s, lo, hi)
    requires forall k :: lo <= k < hi ==> s[k] < cols
    ensures hi - lo <= cols
  {
    if lo < hi {
      IncreasingOffset(s, lo, hi, hi - 1);
    }
  }

  /** The first `r` rows of a well-formed CSR matrix store at most r*cols entries. */
  lemma {:induction false} RowPtrBound(l: Layout, r: nat)
    requires l.Sparse? && WellFormed(l)
    requires r <= l.rows
    ensures l.rowPtr[r] <= r * l.cols
  {
    if r > 0 {
      RowPtrBound(l, r - 1);
      assert RowOrdered(l.rowPtr, l.colIdx, r - 1);
      RowAtMostCols(l.colIdx, l.rowPtr[r - 1], l.rowPtr[r], l.cols);
      assert (r - 1) * l.cols + l.cols == r * l.cols;
    }
  }

  /** Both layouts: a well-formed buffer has Size rows*cols and StoredCount at most that. */
  lemma StoredCountWithinSize(l: Layout)
    requires WellFormed(l)
    ensures Size(l) == l.rows * l.cols
    ensures StoredCount(l) <= Size(l)
  {
    if l.Sparse? {
      RowPtrBound(l, l.rows);
    }
  }
}
