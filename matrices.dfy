/**
 * The matrices the entrywise scalar operations work on.
 *
 * A matrix is described by its capability tags (the interfaces it implements:
 * DenseMatrix, SparseMatrix, DenseMatrix2D, DenseDoubleMatrix2D, HasDoubleArray2D,
 * HasDoubleArray), its shape, its accessor view (the values `getAsBigDecimal`,
 * `getDouble`, `setAsBigDecimal` and `setDouble` read and write, keyed by
 * coordinate) and, when it has them, its raw `double[][]` or `double[]` storage.
 *
 * Element values are one abstract type `V`; the arithmetic of `MathUtil` and of
 * Java doubles and the conversions between `BigDecimal` and `double` are
 * supplied as functions in an `Arith<V>` record.
 */
module Matrices {
  import opened Shapes

  /**
   * The carrier of cell values in the scalar operations. Only the functions of
   * an `Arith<Value>` record compute on it; nothing of the real field is used.
   */
  type Value = real

  /** The representation interfaces a matrix implements. */
  datatype Kind = Kind(
    dense: bool,          // DenseMatrix
    sparse: bool,         // SparseMatrix
    dense2D: bool,        // DenseMatrix2D
    denseDouble2D: bool,  // DenseDoubleMatrix2D
    hasArray2D: bool,     // HasDoubleArray2D: exposes a double[][]
    hasArray1D: bool)     // HasDoubleArray: exposes a double[]

  /** A scalar argument: a BigDecimal or a Java double. */
  datatype Scalar<V> = Exact(value: V) | Float(value: V)

  /**
   * Element arithmetic, left abstract.
   * exactTimes/exactDivide: MathUtil.times and MathUtil.divide on BigDecimal;
   * floatTimes/floatDivide: Java `*` and `/` on double, operands in the order written;
   * toExact: `new BigDecimal(d, MathUtil.getDefaultMathContext())`;
   * toFloat: `BigDecimal.doubleValue()`;
   * zero: what reading a coordinate that holds no value yields.
   */
  datatype Arith<!V> = Arith(
    exactTimes: (V, V) -> V,
    exactDivide: (V, V) -> V,
    floatTimes: (V, V) -> V,
    floatDivide: (V, V) -> V,
    toExact: V -> V,
    toFloat: V -> V,
    zero: V)

  /** The value the accessor view holds at `c`, or `zero` when it holds none. */
  function Read<V>(cells: map<seq<int>, V>, c: seq<int>, zero: V): V {
    if c in cells then cells[c] else zero
  }

  /** The target entries a loop over `keys` writes: `f` of the source value at each key. */
  function Applied<V>(keys: set<seq<int>>, cells: map<seq<int>, V>, zero: V, f: V -> V): (r: map<seq<int>, V>)
    ensures r.Keys == keys
  {
    map c | c in keys :: f(Read(cells, c, zero))
  }

  /** Writing one more key extends the written map by that key's entry. */
  lemma AppliedInsert<V>(base: map<seq<int>, V>, keys: set<seq<int>>, k: seq<int>, cells: map<seq<int>, V>, zero: V, f: V -> V)
    ensures base + Applied(keys + {k}, cells, zero, f) == (base + Applied(keys, cells, zero, f))[k := f(Read(cells, k, zero))]
  {
  }

  /** The rows of a raw 2D array: `rows` distinct row arrays of length `cols`. */
  ghost predicate Rectangular<V>(a: array<array<V>>, rows: int, cols: int)
    reads a
  {
    && a.Length == rows
    && (forall i :: 0 <= i < a.Length ==> a[i].Length == cols)
    && (forall i, j :: 0 <= i < j < a.Length ==> a[i] != a[j])
  }

  /** Target rows are written one at a time without touching another index's source row. */
  ghost predicate RowsSeparate<V>(source: array<array<V>>, target: array<array<V>>)
    reads source, target
  {
    forall i, j :: 0 <= i < source.Length && 0 <= j < target.Length && i != j ==> source[i] != target[j]
  }

  class Matrix<V> {
    const kind: Kind
    const shape: seq<int>
    /** The accessor view: coordinates that hold a value, and that value. */
    var cells: map<seq<int>, V>
    /** `getDoubleArray2D()`, present exactly when the matrix is HasDoubleArray2D. */
    const array2D: array?<array<V>>
    /** `getDoubleArray()`, present exactly when the matrix is HasDoubleArray. */
    const array1D: array?<V>

    ghost predicate Valid()
      reads this, array2D
    {
      && (forall i :: 0 <= i < |shape| ==> shape[i] >= 0)
      && (kind.dense2D ==> |shape| == 2)
      && (kind.hasArray2D <==> array2D != null)
      && (kind.hasArray1D <==> array1D != null)
      && (array2D != null ==> |shape| == 2 && Rectangular(array2D, shape[0], shape[1]))
      && (array1D != null ==> array1D.Length == Volume(shape))
    }

    /** The raw storage the fast paths write. */
    ghost function RawFootprint(): set<object>
      reads this, array2D
    {
      (if array1D != null then {array1D} else {}) +
      (if array2D != null then set i | 0 <= i < array2D.Length :: array2D[i] else {})
    }

    /** `getAsBigDecimal(c)` / `getDouble(c)` of the accessor view. */
    function Get(c: seq<int>, zero: V): V
      reads this
    {
      Read(cells, c, zero)
    }
  }
}
