/**
 * The adaptive array of `spring/core.py`: a container holding no buffer, a
 * dense grid or a CSR matrix, together with optional lower and upper bounds
 * on its number of nonzeros.
 */
module Core {
  import opened Wrappers
  import opened Layouts

  /** The conditions under which the array raises. */
  datatype Error =
    | NotInitialized       // `shape` or `size` with no buffer
    | UnsupportedDataType  // `count_nz` with no buffer and bounds not known to be equal
    | ShapeMismatch        // addition of operands of different shape

  /** A snapshot of the array's three fields. */
  datatype State = State(data: Option<Layout>, ub: Option<nat>, lb: Option<nat>)

  /** Both bounds are known and equal: the count is taken to be exact. */
  predicate Exact(s: State) {
    s.lb.Some? && s.ub.Some? && s.lb.value == s.ub.value
  }

  /**
   * The state invariant: with no buffer, nothing is known about the count;
   * with a buffer, the buffer is well formed and each known bound really
   * bounds its count, the upper one by at most the size.
   */
  ghost predicate Invariant(s: State) {
    match s.data
    case None => s.lb.None? && s.ub.None?
    case Some(l) =>
      && WellFormed(l)
      && (s.lb.Some? ==> s.lb.value <= StoredCount(l))
      && (s.ub.Some? ==> StoredCount(l) <= s.ub.value <= Size(l))
  }

  /**
   * What `count_nz` does to the fields: nothing when the bounds are already
   * equal; otherwise both bounds become the buffer's count, or, with no
   * buffer, it raises and changes nothing.
   */
  function CountNzStep(s: State): (r: (Outcome<Error>, State))
    ensures r.1.data == s.data
    ensures Exact(s) ==> r == (Pass, s)
    ensures r.0.Pass? <==> Exact(s) || s.data.Some?
    ensures r.0.Fail? ==> r.0.error == UnsupportedDataType && r.1 == s
    ensures r.0.Pass? ==> Exact(r.1)
  {
    if Exact(s) then (Pass, s)
    else match s.data
      case Some(l) => (Pass, State(s.data, Some(StoredCount(l)), Some(StoredCount(l))))
      case None => (Fail(UnsupportedDataType), s)
  }

  /** Under the invariant, equal bounds are the exact count. */
  lemma ExactIsCount(s: State)
    requires Invariant(s) && Exact(s) && s.data.Some?
    ensures s.lb.value == s.ub.value == StoredCount(s.data.value)
  {
  }

  /**
   * After counting, a state with a buffer has both bounds equal to the
   * buffer's count: freshly computed, or already exact by the invariant.
   */
  lemma CountNzIsExact(s: State)
    requires Invariant(s) && s.data.Some?
    ensures CountNzStep(s).0 == Pass
    ensures CountNzStep(s).1.lb == CountNzStep(s).1.ub == Some(StoredCount(s.data.value))
  {
    if Exact(s) {
      ExactIsCount(s);
    }
  }

  /**
   * When the bounds were not known and equal, counting sets both to the
   * buffer's count, whatever they held before: the number of nonzero
   * positions of a dense grid, or the number of stored CSR entries.
   */
  lemma CountNzRecounts(s: State)
    requires !Exact(s) && s.data.Some?
    ensures var l := s.data.value;
      var n := if l.Dense? then |NonzeroPositions(l.elems)| else |l.vals|;
      CountNzStep(s) == (Pass, State(s.data, Some(n), Some(n)))
  {
    if s.data.value.Dense? {
      NonzerosArePositions(s.data.value.elems);
    }
  }

  /** Counting keeps the invariant, and leaves `lb <= ub <= size`. */
  lemma CountNzKeepsInvariant(s: State)
    requires Invariant(s)
    ensures Invariant(CountNzStep(s).1)
    ensures s.data.Some? ==>
      CountNzStep(s).1.lb.value <= CountNzStep(s).1.ub.value <= s.data.value.rows * s.data.value.cols
  {
    if s.data.Some? {
      StoredCountWithinSize(s.data.value);
      CountNzIsExact(s);
    }
  }

  /** Counting twice is counting once: same outcome, same fields. */
  lemma CountNzIdempotent(s: State)
    ensures CountNzStep(CountNzStep(s).1) == CountNzStep(s)
  {
  }

  /**
   * A 4x4 grid that is zero except for a 1 at (0, 0) counts one nonzero;
   * storing the same entry as CSR also counts one.
   */
  lemma SingleEntryCounts()
    ensures var grid := [1] + seq(15, _ => 0);
      CountNzStep(State(Some(Dense(4, 4, grid)), None, None)).1.lb == Some(1)
    ensures CountNzStep(State(Some(Sparse(4, 4, [0, 1, 1, 1, 1], [0], [1])), None, None)).1.ub == Some(1)
  {
    var grid := [1] + seq(15, _ => 0);
    assert grid[0] != 0;
    assert forall i :: 0 <= i < 15 ==> grid[1..][i] == 0;
    NonzerosArePositions(grid);
    assert NonzeroPositions(grid) == {0};
  }

  /** The nonzero count of a row-major grid, as `np.count_nonzero` computes it. */
  method CountNonzeros(elems: seq<int>) returns (n: nat)
    ensures n == Nonzeros(elems)
    ensures n == |NonzeroPositions(elems)|
  {
    n := 0;
    var i := 0;
    while i < |elems|
      invariant i <= |elems|
      invariant n == Nonzeros(elems[..i])
    {
      assert elems[..i + 1][..i] == elems[..i];
      if elems[i] != 0 {
        n := n + 1;
      }
      i := i + 1;
    }
    assert elems[..i] == elems;
    NonzerosArePositions(elems);
  }

  class NDArray {
    var data: Option<Layout>
    var ub: Option<nat>  // upper bound on the number of nonzeros, or None if unknown
    var lb: Option<nat>  // lower bound on the number of nonzeros, or None if unknown

    /** The three fields as a value. */
    function Model(): State
      reads this
    {
      State(data, ub, lb)
    }

    ghost predicate Valid()
      reads this
    {
      Invariant(Model())
    }

    /** A fresh array with no buffer and both bounds unknown. */
    constructor ()
      ensures data == None && ub == None && lb == None
      ensures Valid()
    {
      data := None;
      ub := None;
      lb := None;
    }

    /** Wraps a dense grid; both bounds start unknown. */
    static method FromDense(rows: nat, cols: nat, elems: seq<int>) returns (a: NDArray)
      ensures fresh(a)
      ensures a.data == Some(Dense(rows, cols, elems)) && a.ub == None && a.lb == None
      ensures |elems| == rows * cols ==> a.Valid()
    {
      a := new NDArray();
      a.data := Some(Dense(rows, cols, elems));
    }

    /** Wraps a CSR matrix; both bounds start unknown. */
    static method FromSparse(rows: nat, cols: nat, rowPtr: seq<nat>, colIdx: seq<nat>, vals: seq<int>)
      returns (a: NDArray)
      ensures fresh(a)
      ensures a.data == Some(Sparse(rows, cols, rowPtr, colIdx, vals)) && a.ub == None && a.lb == None
      ensures WellFormed(Sparse(rows, cols, rowPtr, colIdx, vals)) ==> a.Valid()
    {
      a := new NDArray();
      a.data := Some(Sparse(rows, cols, rowPtr, colIdx, vals));
    }

    /** The `shape` property: `(rows, cols)`, or an error when there is no buffer. */
    function Shape(): (r: Result<(nat, nat), Error>)
      reads this
      ensures r.Failure? <==> data.None?
      ensures r.Failure? ==> r.error == NotInitialized
      ensures r.Success? ==> r.value == (data.value.rows, data.value.cols)
    {
      match data
      case None => Failure(NotInitialized)
      case Some(l) => Success((l.rows, l.cols))
    }

    /**
     * The `size` property: the dense element count or the CSR rows*cols,
     * which for a well-formed buffer is the product of the shape.
     */
    function Size(): (r: Result<nat, Error>)
      reads this
      ensures r.Failure? <==> data.None?
      ensures r.Failure? ==> r.error == NotInitialized
      ensures r.Success? && WellFormed(data.value) ==> r.value == data.value.rows * data.value.cols
    {
      match data
      case None => Failure(NotInitialized)
      case Some(l) => Success(Layouts.Size(l))
    }

    /**
     * The `count_nz` method: a no-op when both bounds are known and equal;
     * otherwise both bounds are set to the buffer's count, which for a
     * dense grid is found by a scan.
     */
    method CountNz() returns (r: Outcome<Error>)
      modifies this
      ensures data == old(data)
      ensures (r, Model()) == CountNzStep(old(Model()))
      ensures old(Valid()) ==> Valid()
    {
      if Valid() {
        CountNzKeepsInvariant(Model());
      }
      if lb.Some? && ub.Some? && lb.value == ub.value {
        return Pass;
      }
      match data {
        case Some(Dense(_, _, elems)) =>
          var n := CountNonzeros(elems);
          lb, ub := Some(n), Some(n);
          r := Pass;
        case Some(Sparse(_, _, _, _, vals)) =>
          lb, ub := Some(|vals|), Some(|vals|);
          r := Pass;
        case None =>
          r := Fail(UnsupportedDataType);
      }
    }

    /**
     * The guard at the start of `__add__`: reading either operand's shape
     * raises when it has no buffer (this one first), and operands of
     * different shape are rejected. `Pass` means the addition may proceed.
     */
    function AddShapeGuard(other: NDArray): (r: Outcome<Error>)
      reads this, other
      ensures r.Pass? <==>
        data.Some? && other.data.Some? &&
        data.value.rows == other.data.value.rows && data.value.cols == other.data.value.cols
      ensures r == Fail(NotInitialized) <==> data.None? || other.data.None?
      ensures r == Fail(ShapeMismatch) <==>
        data.Some? && other.data.Some? &&
        (data.value.rows != other.data.value.rows || data.value.cols != other.data.value.cols)
    {
      match Shape()
      case Failure(e) => Fail(e)
      case Success(mine) =>
        match other.Shape()
        case Failure(e) => Fail(e)
        case Success(theirs) => if mine != theirs then Fail(ShapeMismatch) else Pass
    }

    /** A shape mismatch is rejected whichever operand comes first. */
    lemma AddShapeGuardSymmetric(other: NDArray)
      ensures AddShapeGuard(other) == Fail(ShapeMismatch) <==> other.AddShapeGuard(this) == Fail(ShapeMismatch)
    {
    }
  }
}
