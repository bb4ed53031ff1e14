/**
 * TimesScalar: `target = source * factor`, entry by entry.
 *
 * `Calc` is `TimesScalar.MATRIX.calc(source, factor, target)`: it follows the
 * handler cascade of module Dispatch and runs the loop the cascade ends in.
 * The thread count (`UJMPSettings.getNumberOfThreads()`) is a parameter.
 */
module TimesScalar {
  import opened Shapes
  import opened Matrices
  import opened Dispatch
  import EntrywiseLoops
  import RawArrays

  /**
   * What each loop writes for a source value `v` and factor `s`, operands in
   * the order the source writes them.
   */
  function Cell<V>(ar: Arith<V>, h: Handler, s: V, v: V): V {
    match h
    case DenseDoubleMatrix2DLoop => ar.floatTimes(s, v)   // factor * source.getDouble(r, c)
    case DoubleArray2D => ar.floatTimes(v, s)             // tsource[c] * factor
    case DoubleArray1D => ar.floatTimes(s, v)             // factor * source[i]
    case _ => ar.exactTimes(v, s)                         // MathUtil.times(value, factor)
  }

  function CellFn<V>(ar: Arith<V>, h: Handler, s: V): V -> V {
    v => Cell(ar, h, s, v)
  }

  /**
   * The private `double[][]` overload. `cols` is `source[0].length`, read before
   * anything else, so a source without rows throws (`ok` is false, nothing is
   * written). With more than one thread and at least 100 rows and 100 columns
   * the rows are handed to a parallel for-each, which runs them in some order;
   * otherwise they run in ascending order. Either way every cell ends up as
   * `source[r][c] * factor`.
   */
  method DoubleArray2DCalc(ar: Arith<Value>, source: array<array<Value>>, factor: Value, target: array<array<Value>>, threads: int)
    returns (ok: bool, parallel: bool)
    requires source.Length == target.Length
    requires forall i :: 0 <= i < source.Length ==> source[i].Length == source[0].Length && target[i].Length == source[0].Length
    requires forall i, j :: 0 <= i < j < target.Length ==> target[i] != target[j]
    requires RowsSeparate(source, target)
    modifies set i | 0 <= i < target.Length :: target[i]
    ensures ok == (source.Length > 0)
    ensures parallel == (ok && threads > 1 && source.Length >= 100 && source[0].Length >= 100)
    ensures forall r, c :: 0 <= r < source.Length && 0 <= c < source[r].Length ==>
      target[r][c] == ar.floatTimes(old(source[r][c]), factor)
  {
    if source.Length == 0 {
      return false, false;
    }
    var f := CellFn(ar, DoubleArray2D, factor);
    var rows := source.Length;
    var cols := source[0].Length;
    ok := true;
    parallel := threads > 1 && rows >= 100 && cols >= 100;
    if parallel {
      RowsAnyOrder(source, target, cols, f);
    } else {
      RowsAscending(source, target, cols, f);
    }
  }

  /**
   * The parallel branch: `new PForEquidistant(0, rows - 1)` runs `step(i)` once
   * for every row, in an order the model leaves open; each step maps one row
   * with ascending columns.
   */
  method RowsAnyOrder(source: array<array<Value>>, target: array<array<Value>>, cols: int, f: Value -> Value)
    requires source.Length == target.Length && 0 <= cols
    requires forall i :: 0 <= i < source.Length ==> source[i].Length == cols && target[i].Length == cols
    requires forall i, j :: 0 <= i < j < target.Length ==> target[i] != target[j]
    requires RowsSeparate(source, target)
    modifies set i | 0 <= i < target.Length :: target[i]
    ensures forall i, c :: 0 <= i < source.Length && 0 <= c < cols ==> target[i][c] == f(old(source[i][c]))
  {
    var todo := RawArrays.Indices(source.Length);
    while todo != {}
      invariant forall i :: i in todo ==> 0 <= i < source.Length
      invariant forall i, c :: 0 <= i < source.Length && i !in todo && 0 <= c < cols ==> target[i][c] == f(old(source[i][c]))
      invariant forall i, c :: i in todo && 0 <= c < cols ==> source[i][c] == old(source[i][c])
      decreases todo
    {
      var i :| i in todo;
      RawArrays.MapRowUp(source[i], target[i], cols, f);
      todo := todo - {i};
    }
  }

  /** The sequential branch: rows in ascending order, each with ascending columns. */
  method RowsAscending(source: array<array<Value>>, target: array<array<Value>>, cols: int, f: Value -> Value)
    requires source.Length == target.Length && 0 <= cols
    requires forall i :: 0 <= i < source.Length ==> source[i].Length == cols && target[i].Length == cols
    requires forall i, j :: 0 <= i < j < target.Length ==> target[i] != target[j]
    requires RowsSeparate(source, target)
    modifies set i | 0 <= i < target.Length :: target[i]
    ensures forall i, c :: 0 <= i < source.Length && 0 <= c < cols ==> target[i][c] == f(old(source[i][c]))
  {
    var r := 0;
    while r < source.Length
      invariant 0 <= r <= source.Length
      invariant forall i, c :: 0 <= i < r && 0 <= c < cols ==> target[i][c] == f(old(source[i][c]))
      invariant forall i, c :: r <= i < source.Length && 0 <= c < cols ==> source[i][c] == old(source[i][c])
    {
      RawArrays.MapRowUp(source[r], target[r], cols, f);
      r := r + 1;
    }
  }

  /**
   * `TimesScalar.MATRIX.calc(source, factor, target)`, with either form of factor.
   * The cascade picks the loop of `ExpectedHandler` (lemma DispatchFollowsTable);
   * afterwards exactly the cells that loop covers hold `source op factor`, with the
   * source as it was before the call. On the accessor paths every other cell of
   * the view keeps its value; the contract is silent about the representation the
   * chosen loop does not write (the view on raw paths, the arrays on accessor paths).
   * `ok` is false only when the raw 2D loop finds a source without rows.
   */
  method Calc(ar: Arith<Value>, source: Matrix<Value>, x: Scalar<Value>, target: Matrix<Value>, threads: int)
    returns (ok: bool)
    requires source.Valid() && target.Valid()
    requires source.shape == target.shape
    requires source.array2D != null && target.array2D != null ==> RowsSeparate(source.array2D, target.array2D)
    modifies target, target.RawFootprint()
    ensures var h := ExpectedHandler(source.kind, target.kind);
      var f := CellFn(ar, h, ScalarFor(ar, h, x).value);
      && (ok <==> !(h == DoubleArray2D && source.shape[0] == 0))
      && (h == MatrixLoop || h == DenseMatrixLoop ==>
            target.cells == old(target.cells) + Applied(CoordinateSet(source.shape), old(source.cells), ar.zero, f))
      && (h == SparseMatrixLoop ==>
            target.cells == old(target.cells) + Applied(old(source.cells).Keys, old(source.cells), ar.zero, f))
      && (h == DenseMatrix2DLoop || h == DenseDoubleMatrix2DLoop ==>
            target.cells == old(target.cells) + Applied(Grid(source.shape[0], source.shape[1]), old(source.cells), ar.zero, f))
      && (h == DoubleArray2D ==>
            forall r, c :: 0 <= r < source.shape[0] && 0 <= c < source.shape[1] ==>
              target.array2D[r][c] == f(old(source.array2D[r][c])))
      && (h == DoubleArray1D ==>
            forall k :: 0 <= k < source.array1D.Length ==> target.array1D[k] == f(old(source.array1D[k])))
  {
    var p := AtMatrix(ar, source.kind, target.kind, x);
    DispatchFollowsTable(ar, source.kind, target.kind, x);
    var f := CellFn(ar, p.handler, p.scalar.value);
    ok := true;
    match p.handler
    case MatrixLoop =>
      EntrywiseLoops.AllCoordinatesLoop(source, target, ar.zero, f);
    case DenseMatrixLoop =>
      EntrywiseLoops.AllCoordinatesLoop(source, target, ar.zero, f);
    case SparseMatrixLoop =>
      EntrywiseLoops.AvailableCoordinatesLoop(source, target, ar.zero, f);
    case DenseMatrix2DLoop =>
      EntrywiseLoops.Descending2DLoop(source, target, ar.zero, f);
    case DenseDoubleMatrix2DLoop =>
      EntrywiseLoops.Descending2DLoop(source, target, ar.zero, f);
    case DoubleArray2D =>
      var parallel;
      ok, parallel := DoubleArray2DCalc(ar, source.array2D, p.scalar.value, target.array2D, threads);
    case DoubleArray1D =>
      ok := RawArrays.Array1D(source.array1D, target.array1D, f);
  }
}
