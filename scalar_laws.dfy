/**
 * Laws relating the two scalar operations and their loops.
 *
 * `RealArith` reads every element operation as exact arithmetic on reals, with
 * no rounding and both conversions the identity. On it, dividing by a nonzero
 * scalar undoes multiplying by it, on every handler. This pins down the operand
 * order of every division loop: `value / divisor`, never `divisor / value`.
 */
module ScalarLaws {
  import opened Shapes
  import opened Matrices
  import opened Dispatch
  import TimesScalar
  import DivideScalar

  /** Real division, with the quotient by zero fixed at zero. */
  function Quotient(a: real, b: real): real {
    if b != 0.0 then a / b else 0.0
  }

  function RealArith(): Arith<real> {
    Arith((a, b) => a * b, Quotient, (a, b) => a * b, Quotient, v => v, v => v, 0.0)
  }

  /** On exact arithmetic, each division loop undoes the matching multiplication loop. */
  lemma DivideUndoesTimes(h: Handler, s: real, v: real)
    requires s != 0.0
    ensures DivideScalar.Cell(RealArith(), h, s, TimesScalar.Cell(RealArith(), h, s, v)) == v
  {
    var ar := RealArith();
    var p := TimesScalar.Cell(ar, h, s, v);
    assert p == v * s;
    assert DivideScalar.Cell(ar, h, s, p) == (v * s) / s;
  }

  /**
   * The sparse path of `divide` after the sparse path of `times`, both by the
   * same nonzero scalar, gives back the stored entries exactly: no coordinate
   * is added or lost, and every value is restored.
   */
  lemma SparseRoundTrip(cells: map<seq<int>, real>, s: real)
    requires s != 0.0
    ensures var ar := RealArith();
      var times := TimesScalar.CellFn(ar, SparseMatrixLoop, s);
      var divide := DivideScalar.CellFn(ar, SparseMatrixLoop, s);
      var scaled := Applied(cells.Keys, cells, ar.zero, times);
      Applied(scaled.Keys, scaled, ar.zero, divide) == cells
  {
    var ar := RealArith();
    var times := TimesScalar.CellFn(ar, SparseMatrixLoop, s);
    var divide := DivideScalar.CellFn(ar, SparseMatrixLoop, s);
    var scaled := Applied(cells.Keys, cells, ar.zero, times);
    var back := Applied(scaled.Keys, scaled, ar.zero, divide);
    forall c | c in cells
      ensures back[c] == cells[c]
    {
      assert scaled[c] == times(cells[c]);
      DivideUndoesTimes(SparseMatrixLoop, s, cells[c]);
    }
  }

  /**
   * The descending row/column loops of the dense-2D handlers write the same
   * entries as the generic loop over `allCoordinates()` would for that shape.
   */
  lemma Dense2DMatchesGeneric<V>(rows: int, cols: int, cells: map<seq<int>, V>, zero: V, f: V -> V)
    ensures Applied(Grid(rows, cols), cells, zero, f) == Applied(CoordinateSet([rows, cols]), cells, zero, f)
  {
    GridIsCoordinateSet(rows, cols);
  }

  /**
   * On a source whose stored coordinates lie in its shape, the sparse loop
   * writes a subset of what the generic loop writes, with the same values, and
   * the two differ only where the source stores nothing.
   */
  lemma SparseWithinGeneric<V>(shape: seq<int>, cells: map<seq<int>, V>, zero: V, f: V -> V)
    requires forall c :: c in cells ==> InShape(c, shape)
    ensures var sparse := Applied(cells.Keys, cells, zero, f);
      var all := Applied(CoordinateSet(shape), cells, zero, f);
      && sparse.Keys <= all.Keys
      && (forall c :: c in sparse ==> sparse[c] == all[c])
      && (forall c :: c in all && c !in sparse ==> all[c] == f(zero))
  {
    forall c | c in cells
      ensures c in CoordinateSet(shape)
    {
      AllCoordinatesMembership(shape, c);
    }
  }
}
