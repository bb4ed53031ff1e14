/**
 * The per-coordinate loops of the scalar handlers, over the accessor view.
 *
 * Each handler in TimesScalar and DivideScalar that does not hand off runs one of
 * these loops with its own element computation `f` (`value op scalar`). The
 * source may be the target itself: every coordinate is read before it is
 * written and written once, so the result is computed from the source as it
 * was before the call.
 */
module EntrywiseLoops {
  import opened Shapes
  import opened Matrices

  /**
   * `for (long[] c : source.allCoordinates()) target.set(f(source.get(c)), c)`:
   * every coordinate of the source's shape is written, nothing else changes.
   */
  method AllCoordinatesLoop<V>(source: Matrix<V>, target: Matrix<V>, zero: V, f: V -> V)
    modifies target
    ensures target.cells == old(target.cells) + Applied(CoordinateSet(source.shape), old(source.cells), zero, f)
  {
    var coords := AllCoordinates(source.shape);
    AllCoordinatesDistinct(source.shape);
    ghost var src := source.cells;
    ghost var done: set<seq<int>> := {};
    var i := 0;
    while i < |coords|
      invariant 0 <= i <= |coords|
      invariant forall k :: k in done <==> k in coords[..i]
      invariant source != target ==> source.cells == src
      invariant target.cells == old(target.cells) + Applied(done, src, zero, f)
    {
      var c := coords[i];
      assert c !in done;
      var v := source.Get(c, zero);
      assert v == Read(src, c, zero);
      AppliedInsert(old(target.cells), done, c, src, zero, f);
      target.cells := target.cells[c := f(v)];
      assert coords[..i + 1] == coords[..i] + [c];
      done := done + {c};
      i := i + 1;
    }
    assert coords[..i] == coords;
    assert done == CoordinateSet(source.shape);
  }

  /**
   * `for (long[] c : source.availableCoordinates()) target.set(f(source.get(c)), c)`:
   * only the coordinates the source holds a value at are written.
   */
  method AvailableCoordinatesLoop<V>(source: Matrix<V>, target: Matrix<V>, zero: V, f: V -> V)
    modifies target
    ensures target.cells == old(target.cells) + Applied(old(source.cells).Keys, old(source.cells), zero, f)
  {
    ghost var src := source.cells;
    var todo := source.cells.Keys;
    while todo != {}
      invariant todo <= src.Keys
      invariant source != target ==> source.cells == src
      invariant target.cells == old(target.cells) + Applied(src.Keys - todo, src, zero, f)
      decreases todo
    {
      var c :| c in todo;
      var v := source.Get(c, zero);
      assert v == Read(src, c, zero);
      AppliedInsert(old(target.cells), src.Keys - todo, c, src, zero, f);
      target.cells := target.cells[c := f(v)];
      assert src.Keys - (todo - {c}) == (src.Keys - todo) + {c};
      todo := todo - {c};
    }
  }

  /** The cells of rows `r+1 .. rows-1` and of row `r` from column `c+1` on. */
  ghost function Done2D(rows: int, cols: int, r: int, c: int): set<seq<int>> {
    (set i, j | r < i < rows && 0 <= j < cols :: [i, j]) + (set j | c < j < cols :: [r, j])
  }

  lemma Done2DStart(rows: int, cols: int)
    ensures Done2D(rows, cols, rows - 1, cols - 1) == {}
  {
  }

  lemma Done2DCell(rows: int, cols: int, r: int, c: int)
    requires 0 <= r < rows && 0 <= c < cols
    ensures [r, c] !in Done2D(rows, cols, r, c)
    ensures Done2D(rows, cols, r, c - 1) == Done2D(rows, cols, r, c) + {[r, c]}
  {
  }

  lemma Done2DRow(rows: int, cols: int, r: int)
    requires 0 <= r < rows
    ensures Done2D(rows, cols, r, -1) == Done2D(rows, cols, r - 1, cols - 1)
  {
    forall k | k in Done2D(rows, cols, r - 1, cols - 1) ensures k in Done2D(rows, cols, r, -1) {
      var i, j :| r - 1 < i < rows && 0 <= j < cols && k == [i, j];
      if i == r {
        assert k in (set j' | -1 < j' < cols :: [r, j']);
      }
    }
  }

  lemma Done2DAll(rows: int, cols: int)
    ensures Done2D(rows, cols, -1, cols - 1) == Grid(rows, cols)
  {
  }

  /**
   * The two nested descending loops
   * `for (r = rows; --r != -1;) for (c = cols; --c != -1;) target.set(f(source.get(r, c)), r, c)`:
   * every cell of the `rows` x `cols` grid is written once, nothing else changes.
   */
  method Descending2DLoop<V>(source: Matrix<V>, target: Matrix<V>, zero: V, f: V -> V)
    requires |source.shape| == 2 && source.shape[0] >= 0 && source.shape[1] >= 0
    modifies target
    ensures target.cells == old(target.cells) + Applied(Grid(source.shape[0], source.shape[1]), old(source.cells), zero, f)
  {
    var rows, cols := source.shape[0], source.shape[1];
    ghost var src := source.cells;
    var r := rows - 1;
    Done2DStart(rows, cols);
    while r != -1
      invariant -1 <= r < rows
      invariant source != target ==> source.cells == src
      invariant target.cells == old(target.cells) + Applied(Done2D(rows, cols, r, cols - 1), src, zero, f)
    {
      var c := cols - 1;
      while c != -1
        invariant -1 <= c < cols
        invariant source != target ==> source.cells == src
        invariant target.cells == old(target.cells) + Applied(Done2D(rows, cols, r, c), src, zero, f)
      {
        var k := [r, c];
        Done2DCell(rows, cols, r, c);
        var v := source.Get(k, zero);
        assert v == Read(src, k, zero);
        AppliedInsert(old(target.cells), Done2D(rows, cols, r, c), k, src, zero, f);
        target.cells := target.cells[k := f(v)];
        c := c - 1;
      }
      Done2DRow(rows, cols, r);
      r := r - 1;
    }
    Done2DAll(rows, cols);
  }
}
