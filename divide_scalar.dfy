/**
 * DivideScalar: `target = source / divisor`, entry by entry.
 *
 * `Calc` is `DivideScalar.MATRIX.calc(source, divisor, target)`: it follows the
 * same handler cascade as TimesScalar (module Dispatch) and runs the loop the
 * cascade ends in. The thread count is a parameter. Division by zero is
 * whatever `exactDivide` or `floatDivide` make of it.
 */
module DivideScalar {
  import opened Shapes
  import opened Matrices
  import opened Dispatch
  import EntrywiseLoops
  import RawArrays

  /** What each loop writes for a source value `v` and divisor `s`: always `v / s`. */
  function Cell<V>(ar: Arith<V>, h: Handler, s: V, v: V): V {
    if IsDouble(h) then ar.floatDivide(v, s)   // source.getDouble(r, c) / divisor, tsource[c] / divisor, source[i] / divisor
    else ar.exactDivide(v, s)                  // MathUtil.divide(value, divisor)
  }

  function CellFn<V>(ar: Arith<V>, h: Handler, s: V): V -> V {
    v => Cell(ar, h, s, v)
  }

  /**
   * The private `double[][]` overload. Rows and columns both run downwards and
   * `source[0].length` is read only when there is a row to process, so a source
   * without rows is a no-op. With more than one thread and at least 100 rows and
   * 100 columns the rows go to a parallel for-each, in some order. Either way
   * every cell ends up as `source[r][c] / divisor`.
   */
  method DoubleArray2DCalc(ar: Arith<Value>, source: array<array<Value>>, divisor: Value, target: array<array<Value>>, threads: int)
    returns (parallel: bool)
    requires source.Length == target.Length
    requires forall i :: 0 <= i < source.Length ==> source[i].Length == source[0].Length && target[i].Length == source[0].Length
    requires forall i, j :: 0 <= i < j < target.Length ==> target[i] != target[j]
    requires RowsSeparate(source, target)
    modifies set i | 0 <= i < target.Length :: target[i]
    ensures parallel == (threads > 1 && source.Length >= 100 && source[0].Length >= 100)
    ensures forall r, c :: 0 <= r < source.Length && 0 <= c < source[r].Length ==>
      target[r][c] == ar.floatDivide(old(source[r][c]), divisor)
  {
    var f := CellFn(ar, DoubleArray2D, divisor);
    parallel := threads > 1 && source.Length >= 100 && source[0].Length >= 100;
    // `source[0].length` is only read when there is a row; with no rows nothing is read or written.
    var cols := if source.Length > 0 then source[0].Length else 0;
    if parallel {
      RowsAnyOrder(source, target, cols, f);
    } else {
      RowsDescending(source, target, cols, f);
    }
  }

  /**
   * The parallel branch: `new PForEquidistant(0, source.length - 1)` runs
   * `step(i)` once for every row, in an order the model leaves open; each step
   * maps one row with descending columns.
   */
  method RowsAnyOrder(source: array<array<Value>>, target: array<array<Value>>, cols: int, f: Value -> Value)
    requires source.Length == target.Length && 0 <= cols
    requires forall i :: 0 <= i < source.Length ==> source[i].Length == cols && target[i].Length == cols
    requires forall i, j :: 0 <= i < j < target.Length ==> target[i] != target[j]
    requires RowsSeparate(source, target)
    modifies set i | 0 <= i < target.Length :: target[i]
    ensures forall i, c :: 0 <= i < source.Length && 0 <= c < cols ==> target[i][c] == f(old(source[i][c]))
  {
    var todo := RawArrays.Indices(source.Length);
    while todo != {}
      invariant forall i :: i in todo ==> 0 <= i < source.Length
      invariant forall i, c :: 0 <= i < source.Length && i !in todo && 0 <= c < cols ==> target[i][c] == f(old(source[i][c]))
      invariant forall i, c :: i in todo && 0 <= c < cols ==> source[i][c] == old(source[i][c])
      decreases todo
    {
      var i :| i in todo;
      RawArrays.MapRowDown(source[i], target[i], cols, f);
      todo := todo - {i};
    }
  }

  /** The sequential branch: `--r != -1` and `--c != -1`, rows and columns both descending. */
  method RowsDescending(source: array<array<Value>>, target: array<array<Value>>, cols: int, f: Value -> Value)
    requires source.Length == target.Length && 0 <= cols
    requires forall i :: 0 <= i < source.Length ==> source[i].Length == cols && target[i].Length == cols
    requires forall i, j :: 0 <= i < j < target.Length ==> target[i] != target[j]
    requires RowsSeparate(source, target)
    modifies set i | 0 <= i < target.Length :: target[i]
    ensures forall i, c :: 0 <= i < source.Length && 0 <= c < cols ==> target[i][c] == f(old(source[i][c]))
  {
    var r := source.Length - 1;
    while r != -1
      invariant -1 <= r < source.Length
      invariant forall i, c :: r < i < source.Length && 0 <= c < cols ==> target[i][c] == f(old(source[i][c]))
      invariant forall i, c :: 0 <= i <= r && 0 <= c < cols ==> source[i][c] == old(source[i][c])
    {
      RawArrays.MapRowDown(source[r], target[r], cols, f);
      r := r - 1;
    }
  }

  /**
   * `DivideScalar.MATRIX.calc(source, divisor, target)`, with either form of divisor.
   * The cascade picks the loop of `ExpectedHandler` (lemma DispatchFollowsTable);
   * afterwards exactly the cells that loop covers hold `source / divisor`, with the
   * source as it was before the call. On the accessor paths every other cell of
   * the view keeps its value; the contract is silent about the representation the
   * chosen loop does not write (the view on raw paths, the arrays on accessor paths).
   */
  method Calc(ar: Arith<Value>, source: Matrix<Value>, x: Scalar<Value>, target: Matrix<Value>, threads: int)
    requires source.Valid() && target.Valid()
    requires source.shape == target.shape
    requires source.array2D != null && target.array2D != null ==> RowsSeparate(source.array2D, target.array2D)
    modifies target, target.RawFootprint()
    ensures var h := ExpectedHandler(source.kind, target.kind);
      var f := CellFn(ar, h, ScalarFor(ar, h, x).value);
      && (h == MatrixLoop || h == DenseMatrixLoop ==>
            target.cells == old(target.cells) + Applied(CoordinateSet(source.shape), old(source.cells), ar.zero, f))
      && (h == SparseMatrixLoop ==>
            target.cells == old(target.cells) + Applied(old(source.cells).Keys, old(source.cells), ar.zero, f))
      && (h == DenseMatrix2DLoop || h == DenseDoubleMatrix2DLoop ==>
            target.cells == old(target.cells) + Applied(Grid(source.shape[0], source.shape[1]), old(source.cells), ar.zero, f))
      && (h == DoubleArray2D ==>
            forall r, c :: 0 <= r < source.shape[0] && 0 <= c < source.shape[1] ==>
              target.array2D[r][c] == f(old(source.array2D[r][c])))
      && (h == DoubleArray1D ==>
            forall k :: 0 <= k < source.array1D.Length ==> target.array1D[k] == f(old(source.array1D[k])))
  {
    var p := AtMatrix(ar, source.kind, target.kind, x);
    DispatchFollowsTable(ar, source.kind, target.kind, x);
    var f := CellFn(ar, p.handler, p.scalar.value);
    match p.handler
    case MatrixLoop =>
      EntrywiseLoops.AllCoordinatesLoop(source, target, ar.zero, f);
    case DenseMatrixLoop =>
      EntrywiseLoops.AllCoordinatesLoop(source, target, ar.zero, f);
    case SparseMatrixLoop =>
      EntrywiseLoops.AvailableCoordinatesLoop(source, target, ar.zero, f);
    case DenseMatrix2DLoop =>
      EntrywiseLoops.Descending2DLoop(source, target, ar.zero, f);
    case DenseDoubleMatrix2DLoop =>
      EntrywiseLoops.Descending2DLoop(source, target, ar.zero, f);
    case DoubleArray2D =>
      var parallel := DoubleArray2DCalc(ar, source.array2D, p.scalar.value, target.array2D, threads);
    case DoubleArray1D =>
      var ok := RawArrays.Array1D(source.array1D, target.array1D, f);
  }
}
