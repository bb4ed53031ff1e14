/**
 * The handler cascade shared by TimesScalar and DivideScalar.
 *
 * Both interfaces hold the same five handlers, MATRIX, DENSEMATRIX, SPARSEMATRIX,
 * DENSEMATRIX2D and DENSEDOUBLEMATRIX2D, each with a BigDecimal and a double
 * overload of `calc`. Each overload either hands the pair (source, target) to a
 * narrower handler when both implement the narrower interface, converts the
 * scalar and calls the other overload of the same handler, or runs its own loop.
 * `AtMatrix` and its siblings follow those methods call for call and return
 * the loop that finally runs, with the scalar it runs with.
 */
module Dispatch {
  import opened Matrices

  /** The loop that ends up writing the target. */
  datatype Handler =
    | MatrixLoop               // MATRIX: every coordinate of source.allCoordinates()
    | DenseMatrixLoop          // DENSEMATRIX: every coordinate of source.allCoordinates()
    | SparseMatrixLoop         // SPARSEMATRIX: source.availableCoordinates() only
    | DenseMatrix2DLoop        // DENSEMATRIX2D: descending rows and columns, BigDecimal
    | DenseDoubleMatrix2DLoop  // DENSEDOUBLEMATRIX2D: descending rows and columns, double accessors
    | DoubleArray2D            // the private double[][] overload
    | DoubleArray1D            // the private double[] overload

  /** The loops that work on the raw arrays rather than through the accessors. */
  predicate IsRaw(h: Handler) {
    h.DoubleArray2D? || h.DoubleArray1D?
  }

  datatype Plan<V> = Plan(handler: Handler, scalar: Scalar<V>)

  /** The loops that compute in double rather than BigDecimal. */
  predicate IsDouble(h: Handler) {
    h.DenseDoubleMatrix2DLoop? || h.DoubleArray2D? || h.DoubleArray1D?
  }

  /** MATRIX.calc, either overload. */
  function AtMatrix<V>(ar: Arith<V>, s: Kind, t: Kind, x: Scalar<V>): Plan<V>
    decreases if x.Float? then 1 else 0
  {
    if s.dense && t.dense then AtDenseMatrix(ar, s, t, x)
    else if s.sparse && t.sparse then AtSparseMatrix(ar, s, t, x)
    else match x
      case Exact(_) => Plan(MatrixLoop, x)
      case Float(f) => AtMatrix(ar, s, t, Exact(ar.toExact(f)))
  }

  /** DENSEMATRIX.calc, either overload. */
  function AtDenseMatrix<V>(ar: Arith<V>, s: Kind, t: Kind, x: Scalar<V>): Plan<V>
    decreases if x.Float? then 1 else 0
  {
    if s.dense2D && t.dense2D then AtDenseMatrix2D(ar, s, t, x)
    else match x
      case Exact(_) => Plan(DenseMatrixLoop, x)
      case Float(f) => AtDenseMatrix(ar, s, t, Exact(ar.toExact(f)))
  }

  /** SPARSEMATRIX.calc: the double overload always converts to BigDecimal. */
  function AtSparseMatrix<V>(ar: Arith<V>, s: Kind, t: Kind, x: Scalar<V>): Plan<V>
    decreases if x.Float? then 1 else 0
  {
    match x
    case Exact(_) => Plan(SparseMatrixLoop, x)
    case Float(f) => AtSparseMatrix(ar, s, t, Exact(ar.toExact(f)))
  }

  /** DENSEMATRIX2D.calc, either overload. */
  function AtDenseMatrix2D<V>(ar: Arith<V>, s: Kind, t: Kind, x: Scalar<V>): Plan<V>
    decreases if x.Float? then 1 else 0
  {
    if s.denseDouble2D && t.denseDouble2D then AtDenseDoubleMatrix2D(ar, s, t, x)
    else match x
      case Exact(_) => Plan(DenseMatrix2DLoop, x)
      case Float(f) => AtDenseMatrix2D(ar, s, t, Exact(ar.toExact(f)))
  }

  /** DENSEDOUBLEMATRIX2D.calc: the BigDecimal overload converts to double once. */
  function AtDenseDoubleMatrix2D<V>(ar: Arith<V>, s: Kind, t: Kind, x: Scalar<V>): Plan<V>
    decreases if x.Exact? then 1 else 0
  {
    match x
    case Exact(d) => AtDenseDoubleMatrix2D(ar, s, t, Float(ar.toFloat(d)))
    case Float(_) =>
      if s.hasArray2D && t.hasArray2D then Plan(DoubleArray2D, x)
      else if s.hasArray1D && t.hasArray1D then Plan(DoubleArray1D, x)
      else Plan(DenseDoubleMatrix2DLoop, x)
  }

  /**
   * The handler for a pair of kinds, as a decision table: the first row whose
   * condition holds wins.
   */
  function ExpectedHandler(s: Kind, t: Kind): Handler {
    var dense := s.dense && t.dense;
    var dense2D := dense && s.dense2D && t.dense2D;
    var double2D := dense2D && s.denseDouble2D && t.denseDouble2D;
    if double2D && s.hasArray2D && t.hasArray2D then DoubleArray2D
    else if double2D && s.hasArray1D && t.hasArray1D then DoubleArray1D
    else if double2D then DenseDoubleMatrix2DLoop
    else if dense2D then DenseMatrix2DLoop
    else if dense then DenseMatrixLoop
    else if s.sparse && t.sparse then SparseMatrixLoop
    else MatrixLoop
  }

  /** The scalar as a BigDecimal: unchanged if it is one, else converted with the default context. */
  function AsExact<V>(ar: Arith<V>, x: Scalar<V>): V {
    match x
    case Exact(d) => d
    case Float(f) => ar.toExact(f)
  }

  /** The scalar as a double: unchanged if it is one, else `doubleValue()`. */
  function AsFloat<V>(ar: Arith<V>, x: Scalar<V>): V {
    match x
    case Exact(d) => ar.toFloat(d)
    case Float(f) => f
  }

  /** The scalar in the precision handler `h` computes in, converted at most once. */
  function ScalarFor<V>(ar: Arith<V>, h: Handler, x: Scalar<V>): Scalar<V> {
    if IsDouble(h) then Float(AsFloat(ar, x)) else Exact(AsExact(ar, x))
  }

  lemma {:induction false} AtDenseDoubleMatrix2DPlan<V>(ar: Arith<V>, s: Kind, t: Kind, x: Scalar<V>)
    requires s.dense && t.dense && s.dense2D && t.dense2D && s.denseDouble2D && t.denseDouble2D
    ensures AtDenseDoubleMatrix2D(ar, s, t, x) == Plan(ExpectedHandler(s, t), ScalarFor(ar, ExpectedHandler(s, t), x))
  {
    match x
    case Exact(d) => assert AtDenseDoubleMatrix2D(ar, s, t, x) == AtDenseDoubleMatrix2D(ar, s, t, Float(ar.toFloat(d)));
    case Float(_) =>
  }

  lemma {:induction false} AtDenseMatrix2DPlan<V>(ar: Arith<V>, s: Kind, t: Kind, x: Scalar<V>)
    requires s.dense && t.dense && s.dense2D && t.dense2D
    ensures AtDenseMatrix2D(ar, s, t, x) == Plan(ExpectedHandler(s, t), ScalarFor(ar, ExpectedHandler(s, t), x))
  {
    if s.denseDouble2D && t.denseDouble2D {
      AtDenseDoubleMatrix2DPlan(ar, s, t, x);
    } else if x.Float? {
      assert AtDenseMatrix2D(ar, s, t, x) == AtDenseMatrix2D(ar, s, t, Exact(ar.toExact(x.value)));
    }
  }

  lemma {:induction false} AtDenseMatrixPlan<V>(ar: Arith<V>, s: Kind, t: Kind, x: Scalar<V>)
    requires s.dense && t.dense
    ensures AtDenseMatrix(ar, s, t, x) == Plan(ExpectedHandler(s, t), ScalarFor(ar, ExpectedHandler(s, t), x))
  {
    if s.dense2D && t.dense2D {
      AtDenseMatrix2DPlan(ar, s, t, x);
    } else if x.Float? {
      assert AtDenseMatrix(ar, s, t, x) == AtDenseMatrix(ar, s, t, Exact(ar.toExact(x.value)));
    }
  }

  /**
   * Which loop runs, for every pair of kinds and either form of scalar, is the
   * decision table; and the scalar reaches that loop converted at most once,
   * into the precision the loop computes in.
   */
  lemma {:induction false} DispatchFollowsTable<V>(ar: Arith<V>, s: Kind, t: Kind, x: Scalar<V>)
    ensures AtMatrix(ar, s, t, x) == Plan(ExpectedHandler(s, t), ScalarFor(ar, ExpectedHandler(s, t), x))
  {
    if s.dense && t.dense {
      AtDenseMatrixPlan(ar, s, t, x);
    } else if s.sparse && t.sparse {
      if x.Float? {
        assert AtSparseMatrix(ar, s, t, x) == AtSparseMatrix(ar, s, t, Exact(ar.toExact(x.value)));
      }
    } else if x.Float? {
      assert AtMatrix(ar, s, t, x) == AtMatrix(ar, s, t, Exact(ar.toExact(x.value)));
    }
  }

  /**
   * Dispatch priority: a dense pair is handled by the dense ladder even when it is
   * also a sparse pair; a sparse pair that is not a dense pair takes the sparse
   * loop; any other pair takes the generic loop over all coordinates.
   */
  lemma DispatchPriority<V>(ar: Arith<V>, s: Kind, t: Kind, x: Scalar<V>)
    ensures var h := AtMatrix(ar, s, t, x).handler;
      && (s.dense && t.dense ==> h != SparseMatrixLoop && h != MatrixLoop)
      && (h == SparseMatrixLoop <==> !(s.dense && t.dense) && s.sparse && t.sparse)
      && (h == MatrixLoop <==> !(s.dense && t.dense) && !(s.sparse && t.sparse))
  {
    DispatchFollowsTable(ar, s, t, x);
  }

  /**
   * Raw-storage precedence at DENSEDOUBLEMATRIX2D: a double[][] pair wins over a
   * double[] pair, and the per-cell accessor loop runs only when neither pair exists.
   */
  lemma RawStoragePrecedence<V>(ar: Arith<V>, s: Kind, t: Kind, x: Scalar<V>)
    requires s.dense && t.dense && s.dense2D && t.dense2D && s.denseDouble2D && t.denseDouble2D
    ensures var h := AtMatrix(ar, s, t, x).handler;
      && (h == DoubleArray2D <==> s.hasArray2D && t.hasArray2D)
      && (h == DoubleArray1D <==> !(s.hasArray2D && t.hasArray2D) && s.hasArray1D && t.hasArray1D)
      && (h == DenseDoubleMatrix2DLoop <==> !(s.hasArray2D && t.hasArray2D) && !(s.hasArray1D && t.hasArray1D))
  {
    DispatchFollowsTable(ar, s, t, x);
  }

  /**
   * Precision: a double scalar is turned into a BigDecimal with the default
   * context exactly when the chosen loop computes in BigDecimal (always on the
   * sparse path), and a BigDecimal scalar is turned into a double exactly when
   * the chosen loop computes in double.
   */
  lemma ScalarConversion<V>(ar: Arith<V>, s: Kind, t: Kind, x: Scalar<V>)
    ensures var p := AtMatrix(ar, s, t, x);
      && (p.scalar.Float? <==> IsDouble(p.handler))
      && (x.Float? && !IsDouble(p.handler) ==> p.scalar == Exact(ar.toExact(x.value)))
      && (x.Exact? && IsDouble(p.handler) ==> p.scalar == Float(ar.toFloat(x.value)))
      && (x.Float? == IsDouble(p.handler) ==> p.scalar == x)
      && (p.handler == SparseMatrixLoop ==> p.scalar == Exact(AsExact(ar, x)))
  {
    DispatchFollowsTable(ar, s, t, x);
  }
}
