# UJMP core: scalar entrywise operations, volatile sparse store, xorshift generator

A Dafny model of three parts of the Universal Java Matrix Package (UJMP):

- **TimesScalar / DivideScalar.** Each computes `target = source * factor` or
  `target = source / divisor`, entry by entry. Each is a ladder of handlers:
  MATRIX → DENSEMATRIX / SPARSEMATRIX → DENSEMATRIX2D → DENSEDOUBLEMATRIX2D →
  the raw `double[][]` and `double[]` loops. Every handler has a BigDecimal
  overload and a double overload. At each level the handler does one of three
  things:
  - passes the (source, target) pair to a narrower handler when both implement
    the narrower interface;
  - converts the scalar and calls its sibling overload;
  - runs its own loop.
- **VolatileSparseObjectMatrix.** A fixed shape plus a soft-reference map
  from coordinates to objects. The garbage collector may drop its entries.
- **RandomSimple.** A xorshift generator on one 64-bit word.

Modules, one per concern:

- `Shapes` (shapes.dfy): coordinates of a shape and their row-major
  enumeration. This enumeration is what `allCoordinates()` yields.
- `Matrices` (matrices.dfy): a matrix, as the class `Matrix` with these parts:
  - its capability tags (`Kind`);
  - its shape;
  - its accessor view, a map `cells` from coordinates to values;
  - its raw `double[][]` / `double[]` storage, when present.

  The element arithmetic is abstract: an `Arith` record of functions for
  BigDecimal/double times and divide and for the two conversions.
- `Dispatch` (dispatch.dfy): the handler cascade, written once for both
  operations. `AtMatrix` and its siblings follow the Java overloads call for
  call, including the re-dispatch after converting the scalar. `ExpectedHandler`
  is an independent decision table.
- `EntrywiseLoops` (loops.dfy) and `RawArrays` (raw_arrays.dfy): the loops, as
  methods that update the target in place. Source and target may be the same
  object.
- `TimesScalar` (times_scalar.dfy) and `DivideScalar` (divide_scalar.dfy): what
  each loop writes per cell, the raw 2D overloads and `Calc`, the entry point
  `MATRIX.calc`.
- `ScalarLaws` (scalar_laws.dfy): laws that tie the two operations and their
  loops together.
- `SparseStore` (volatile_sparse.dfy): the class `VolatileSparseObjectMatrix`.
  Garbage-collector eviction is an explicit `Evict` that only removes keys.
- `Xorshift` (random_simple.dfy): the step function, its inverse, iteration,
  top-bits extraction, and the class `RandomSimple`.

Behaviour the code has and the model keeps:

- The raw `double[][]` times loop reads `source[0].length` before anything else.
  A source with no rows therefore throws; `TimesScalar.DoubleArray2DCalc`
  returns `ok == false` then. The divide loop reads `source[0]` only when it
  has a row to process, so for it an empty source is a no-op.
- The operand order differs between paths, and the model keeps each one:
  - the double accessor loop and the `double[]` loop compute `factor * value`;
  - the `double[][]` loop computes `value * factor`;
  - the BigDecimal loops compute `times(value, factor)`.
- `setObject` does no bounds check. The store can therefore hold coordinates
  outside its shape. The sparse-matrix invariant "available coordinates lie
  within the shape" is not enforced by this class, and the model does not
  claim it.
- `getSize` returns the internal shape array itself, not a copy.
  `VolatileSparseObjectMatrix.GetSize` ensures `r == size`: the result aliases it.
- `next(bits)` shifts by `(64 - bits)` with Java's six-bit masking of shift
  distances, then truncates to `int`.

## Model

| member | source | states |
|---|---|---|
| Shapes.AllCoordinatesMembership | ujmp-core/src/main/java/org/ujmp/core/objectmatrix/impl/VolatileSparseObjectMatrix.java:77-79 | a coordinate is enumerated by `allCoordinates` exactly when it has one index per dimension, each in range |
| Shapes.AllCoordinatesDistinct | ujmp-core/src/main/java/org/ujmp/core/calculation/TimesScalar.java:49-53 | the enumeration the generic loop runs over repeats no coordinate, so each cell is written at most once |
| Shapes.AllCoordinatesCount | ujmp-core/src/main/java/org/ujmp/core/objectmatrix/impl/VolatileSparseObjectMatrix.java:77-79 | the enumeration has exactly as many entries as the shape has cells (the product of the dimensions) |
| Shapes.CoordinateSetShape | ujmp-core/src/main/java/org/ujmp/core/objectmatrix/impl/VolatileSparseObjectMatrix.java:43-48 | the set of enumerated coordinates is exactly the cells of the shape, and its size is the volume |
| Shapes.GridIsCoordinateSet | ujmp-core/src/main/java/org/ujmp/core/calculation/TimesScalar.java:117-123 | the cells a rows × columns loop can visit are exactly the coordinates of the two-dimensional shape |
| RawArrays.Indices | ujmp-core/src/main/java/org/ujmp/core/calculation/TimesScalar.java:165-174 | the parallel for-each over `0 .. rows-1` covers every row index and no other |
| RawArrays.MapRowUp | ujmp-core/src/main/java/org/ujmp/core/calculation/TimesScalar.java:178-184 | an ascending column loop sets each target entry below `cols` from the old source entry and leaves the rest of the row untouched, in place or not |
| RawArrays.MapRowDown | ujmp-core/src/main/java/org/ujmp/core/calculation/DivideScalar.java:179-185 | the descending column loop `--c != -1` sets the same entries as the ascending one, from the old source row |
| RawArrays.Array1D | ujmp-core/src/main/java/org/ujmp/core/calculation/TimesScalar.java:188-193 | the `double[]` loop writes every index below `source.length` and nothing beyond; it fails exactly when the target is shorter |
| EntrywiseLoops.AllCoordinatesLoop | ujmp-core/src/main/java/org/ujmp/core/calculation/TimesScalar.java:49-53 | afterwards the target equals its old accessor view overwritten at every coordinate of the shape by `f` of the old source value there |
| EntrywiseLoops.AvailableCoordinatesLoop | ujmp-core/src/main/java/org/ujmp/core/calculation/TimesScalar.java:97-101 | only the coordinates the source stores a value at are written, each with `f` of that value; every other target entry is as it was |
| EntrywiseLoops.Descending2DLoop | ujmp-core/src/main/java/org/ujmp/core/calculation/TimesScalar.java:117-123 | the doubly descending loop writes every `[r, c]` with `r < rows`, `c < cols`, with `f` of the old source value, and nothing else |
| Dispatch.AtMatrix | ujmp-core/src/main/java/org/ujmp/core/calculation/TimesScalar.java:41-66 | definition (no contract): MATRIX, both overloads; a dense pair goes to DENSEMATRIX, else a sparse pair to SPARSEMATRIX, else a BigDecimal scalar runs the `allCoordinates` loop and a double scalar is converted with the default context and re-dispatched; its properties are the lemmas `DispatchFollowsTable`, `DispatchPriority` and `ScalarConversion` |
| Dispatch.AtDenseMatrix | ujmp-core/src/main/java/org/ujmp/core/calculation/TimesScalar.java:68-91 | definition (no contract): DENSEMATRIX, both overloads; a DenseMatrix2D pair goes on, else the `allCoordinates` loop runs, a double scalar first converted to BigDecimal; its property is `AtDenseMatrixPlan` |
| Dispatch.AtSparseMatrix | ujmp-core/src/main/java/org/ujmp/core/calculation/TimesScalar.java:93-107 | definition (no contract): SPARSEMATRIX; the double overload converts to BigDecimal and the `availableCoordinates` loop runs; covered by `DispatchFollowsTable` and `ScalarConversion` |
| Dispatch.AtDenseMatrix2D | ujmp-core/src/main/java/org/ujmp/core/calculation/TimesScalar.java:109-135 | definition (no contract): DENSEMATRIX2D, both overloads; a DenseDoubleMatrix2D pair goes on, else the descending BigDecimal row/column loop runs; its property is `AtDenseMatrix2DPlan` |
| Dispatch.AtDenseDoubleMatrix2D | ujmp-core/src/main/java/org/ujmp/core/calculation/TimesScalar.java:137-159 | definition (no contract): DENSEDOUBLEMATRIX2D; a BigDecimal scalar becomes `doubleValue()`, then a `double[][]` pair, else a `double[]` pair, else the `getDouble`/`setDouble` loop; its property is `AtDenseDoubleMatrix2DPlan` |
| Dispatch.AtDenseDoubleMatrix2DPlan | ujmp-core/src/main/java/org/ujmp/core/calculation/TimesScalar.java:139-159 | at DENSEDOUBLEMATRIX2D a BigDecimal scalar is converted to double once and the loop of the decision table runs |
| Dispatch.AtDenseMatrix2DPlan | ujmp-core/src/main/java/org/ujmp/core/calculation/TimesScalar.java:111-134 | at DENSEMATRIX2D the pair goes on to DENSEDOUBLEMATRIX2D or runs the BigDecimal loop, as the decision table says |
| Dispatch.AtDenseMatrixPlan | ujmp-core/src/main/java/org/ujmp/core/calculation/TimesScalar.java:70-90 | at DENSEMATRIX the pair goes on to DENSEMATRIX2D or runs the generic loop, as the decision table says |
| Dispatch.DispatchFollowsTable | ujmp-core/src/main/java/org/ujmp/core/calculation/TimesScalar.java:43-65 | for every pair of kinds and either form of scalar, the loop that finally runs is the decision table's, and the scalar reaches it converted at most once, into that loop's precision |
| Dispatch.DispatchPriority | ujmp-core/src/main/java/org/ujmp/core/calculation/DivideScalar.java:44-54 | a dense pair never takes the sparse or generic loop; the sparse loop runs exactly for a sparse, not-dense pair; the generic loop exactly for a pair that is neither |
| Dispatch.RawStoragePrecedence | ujmp-core/src/main/java/org/ujmp/core/calculation/TimesScalar.java:146-157 | a `double[][]` pair wins over a `double[]` pair, and the per-cell accessor loop runs exactly when neither pair exists |
| Dispatch.ScalarConversion | ujmp-core/src/main/java/org/ujmp/core/calculation/DivideScalar.java:107-109 | a double scalar is converted with the default context exactly when the chosen loop computes in BigDecimal (always on the sparse path); a BigDecimal is converted to double exactly when the loop computes in double; otherwise it is passed unchanged |
| TimesScalar.Cell | ujmp-core/src/main/java/org/ujmp/core/calculation/TimesScalar.java:51-191 | definition (no contract): the value each loop writes, with the operand order of that loop: `times(value, factor)` on the BigDecimal loops, `factor * value` on the double accessor and `double[]` loops, `value * factor` on the `double[][]` loop; `ScalarLaws.DivideUndoesTimes` relates it to `DivideScalar.Cell` |
| TimesScalar.RowsAnyOrder | ujmp-core/src/main/java/org/ujmp/core/calculation/TimesScalar.java:165-174 | every row, taken in any order, has each cell below `cols` set to `f` of the old source cell |
| TimesScalar.RowsAscending | ujmp-core/src/main/java/org/ujmp/core/calculation/TimesScalar.java:176-184 | rows in ascending order, each with ascending columns, leave every cell below `cols` as `f` of the old source cell |
| TimesScalar.DoubleArray2DCalc | ujmp-core/src/main/java/org/ujmp/core/calculation/TimesScalar.java:161-186 | the parallel branch is taken exactly when threads > 1, rows ≥ 100 and cols ≥ 100; either branch leaves every cell `source[r][c] * factor` of the old source; a source without rows fails |
| TimesScalar.Calc | ujmp-core/src/main/java/org/ujmp/core/calculation/TimesScalar.java:41-194 | runs the decision table's loop with the converted factor: on accessor paths the target view holds `source * factor` at exactly that loop's coordinates and its old value everywhere else; on raw paths every array cell holds the product of the old source cell; `ok` fails only for a raw 2D source without rows |
| DivideScalar.Cell | ujmp-core/src/main/java/org/ujmp/core/calculation/DivideScalar.java:52-192 | definition (no contract): every loop writes `value / divisor`, `MathUtil.divide` on the BigDecimal loops and the double quotient on the others; `ScalarLaws.DivideUndoesTimes` relates it to `TimesScalar.Cell` |
| DivideScalar.RowsAnyOrder | ujmp-core/src/main/java/org/ujmp/core/calculation/DivideScalar.java:167-175 | every row, taken in any order, has each cell below `source[0].length` set to `f` of the old source cell by the descending column loop |
| DivideScalar.RowsDescending | ujmp-core/src/main/java/org/ujmp/core/calculation/DivideScalar.java:177-185 | rows and columns both descending (`--r != -1`, `--c != -1`) leave every cell below `source[0].length` as `f` of the old source cell |
| DivideScalar.DoubleArray2DCalc | ujmp-core/src/main/java/org/ujmp/core/calculation/DivideScalar.java:164-187 | the parallel branch is taken exactly when threads > 1, `source.length` ≥ 100 and `source[0].length` ≥ 100; either branch leaves every cell `source[r][c] / divisor` of the old source |
| DivideScalar.Calc | ujmp-core/src/main/java/org/ujmp/core/calculation/DivideScalar.java:41-195 | runs the decision table's loop with the converted divisor: on accessor paths the target view holds `value / divisor` at exactly that loop's coordinates and its old value everywhere else; on raw paths every array cell holds the old source cell divided by the divisor |
| ScalarLaws.DivideUndoesTimes | ujmp-core/src/main/java/org/ujmp/core/calculation/DivideScalar.java:147-162 | with exact arithmetic, every division loop's cell operation undoes the matching multiplication's: each computes `value / divisor`, never `divisor / value` |
| ScalarLaws.SparseRoundTrip | ujmp-core/src/main/java/org/ujmp/core/calculation/DivideScalar.java:98-105 | the sparse divide path after the sparse times path by the same nonzero scalar restores the stored entries exactly, adding and losing no coordinate |
| ScalarLaws.Dense2DMatchesGeneric | ujmp-core/src/main/java/org/ujmp/core/calculation/DivideScalar.java:120-126 | the descending dense-2D loops write the same entries as the generic `allCoordinates` loop would |
| ScalarLaws.SparseWithinGeneric | ujmp-core/src/main/java/org/ujmp/core/calculation/DivideScalar.java:100-104 | for a source whose stored coordinates lie in its shape, the sparse loop writes a subset of the generic loop's entries with equal values; they differ only where nothing is stored |
| SparseStore.CopyOf | ujmp-core/src/main/java/org/ujmp/core/objectmatrix/impl/VolatileSparseObjectMatrix.java:55-57 | the shape is copied into a new array with the same entries |
| SparseStore.ToArray | ujmp-core/src/main/java/org/ujmp/core/objectmatrix/impl/VolatileSparseObjectMatrix.java:44 | the copied shape of another matrix is a new array holding its dimensions |
| SparseStore.VolatileSparseObjectMatrix.constructor | ujmp-core/src/main/java/org/ujmp/core/objectmatrix/impl/VolatileSparseObjectMatrix.java:55-57 | the shape is a fresh copy of the argument, so later writes to the argument cannot change it; nothing is stored |
| SparseStore.VolatileSparseObjectMatrix.Copy | ujmp-core/src/main/java/org/ujmp/core/objectmatrix/impl/VolatileSparseObjectMatrix.java:43-48 | the shape is that of `m`; afterwards exactly the cells of the shape are stored, each with `m`'s value there, one entry per cell |
| SparseStore.VolatileSparseObjectMatrix.IsTransient | ujmp-core/src/main/java/org/ujmp/core/objectmatrix/impl/VolatileSparseObjectMatrix.java:51-53 | always true |
| SparseStore.VolatileSparseObjectMatrix.GetSize | ujmp-core/src/main/java/org/ujmp/core/objectmatrix/impl/VolatileSparseObjectMatrix.java:59-61 | returns the shape array itself, aliased |
| SparseStore.VolatileSparseObjectMatrix.GetObject | ujmp-core/src/main/java/org/ujmp/core/objectmatrix/impl/VolatileSparseObjectMatrix.java:64-66 | the stored object at a stored coordinate, `null` at any other |
| SparseStore.VolatileSparseObjectMatrix.GetValueCount | ujmp-core/src/main/java/org/ujmp/core/objectmatrix/impl/VolatileSparseObjectMatrix.java:69-71 | the number of stored coordinates |
| SparseStore.VolatileSparseObjectMatrix.SetObject | ujmp-core/src/main/java/org/ujmp/core/objectmatrix/impl/VolatileSparseObjectMatrix.java:73-75 | the coordinate now holds the value, every other entry is unchanged, there is no bounds check, and stored keys stay among the written ones |
| SparseStore.VolatileSparseObjectMatrix.Contains | ujmp-core/src/main/java/org/ujmp/core/objectmatrix/impl/VolatileSparseObjectMatrix.java:85-87 | true exactly when something, `null` included, is stored at the coordinate |
| SparseStore.VolatileSparseObjectMatrix.AllCoordinatesOf | ujmp-core/src/main/java/org/ujmp/core/objectmatrix/impl/VolatileSparseObjectMatrix.java:77-79 | every cell of the current shape, each once, as many as the volume, whatever is stored |
| SparseStore.VolatileSparseObjectMatrix.Entries | ujmp-core/src/main/java/org/ujmp/core/objectmatrix/impl/VolatileSparseObjectMatrix.java:81-83 | exactly the stored coordinates |
| SparseStore.VolatileSparseObjectMatrix.Evict | ujmp-core/src/main/java/org/ujmp/core/objectmatrix/impl/VolatileSparseObjectMatrix.java:39 | the collector's removal drops one key, changes no surviving value and keeps the stored keys among the written ones |
| SparseStore.ReadAfterWrite | ujmp-core/src/main/java/org/ujmp/core/objectmatrix/impl/VolatileSparseObjectMatrix.java:64-87 | on the class, `setObject(v, c)` then `getObject(c)` returns `v` and `contains(c)` holds, while `getObject(d)` and `contains(d)` for any other `d` answer as before the write |
| SparseStore.ReplayOnlyWritesAdd | ujmp-core/src/main/java/org/ujmp/core/objectmatrix/impl/VolatileSparseObjectMatrix.java:73-75 | after any sequence of writes and evictions, every stored key was stored before or written since, and a key not written since holds its old value: the soft map only ever removes |
| SparseStore.Run | ujmp-core/src/main/java/org/ujmp/core/objectmatrix/impl/VolatileSparseObjectMatrix.java:73-75 | any interleaving of `setObject` calls and evictions on one matrix keeps the stored keys among those ever written and leaves exactly the entries `Replay` computes |
| Xorshift.Step | ujmp-core/src/main/java/org/ujmp/core/util/RandomSimple.java:41-46 | definition (no contract): the three assignments `x ^= x << 21`, `x ^= x >>> 35`, `x ^= x << 4` on a 64-bit word; its properties are `UnstepStep`, `StepUnstep` and `StepZero` |
| Xorshift.StepDef | ujmp-core/src/main/java/org/ujmp/core/util/RandomSimple.java:42-44 | the step is the three stages, one per assignment, applied in source order |
| Xorshift.UnmixMixLeft21 | ujmp-core/src/main/java/org/ujmp/core/util/RandomSimple.java:42 | the stage `x ^= x << 21` is undone by `UnmixLeft21` |
| Xorshift.MixUnmixLeft21 | ujmp-core/src/main/java/org/ujmp/core/util/RandomSimple.java:42 | `UnmixLeft21` is undone by the stage `x ^= x << 21`, so that stage is a bijection |
| Xorshift.MixRight35Involution | ujmp-core/src/main/java/org/ujmp/core/util/RandomSimple.java:43 | the stage `x ^= x >>> 35` applied twice is the identity |
| Xorshift.UnmixMixLeft4 | ujmp-core/src/main/java/org/ujmp/core/util/RandomSimple.java:44 | the stage `x ^= x << 4` is undone by `UnmixLeft4` |
| Xorshift.MixUnmixLeft4 | ujmp-core/src/main/java/org/ujmp/core/util/RandomSimple.java:44 | `UnmixLeft4` is undone by the stage `x ^= x << 4`, so that stage is a bijection |
| Xorshift.UnstepStep | ujmp-core/src/main/java/org/ujmp/core/util/RandomSimple.java:41-46 | the three xor-shift assignments are undone by `Unstep`: the step is injective |
| Xorshift.StepUnstep | ujmp-core/src/main/java/org/ujmp/core/util/RandomSimple.java:41-46 | `Unstep` is undone by the step: the step is onto, hence a bijection of 64-bit words |
| Xorshift.StepZero | ujmp-core/src/main/java/org/ujmp/core/util/RandomSimple.java:41-46 | a step yields 0 exactly from state 0 |
| Xorshift.IterateZero | ujmp-core/src/main/java/org/ujmp/core/util/RandomSimple.java:37-46 | after any number of steps the state is 0 exactly when the seed was 0 |
| Xorshift.Outputs | ujmp-core/src/main/java/org/ujmp/core/util/RandomSimple.java:41-46 | the k values returned after seeding are, in order, the states after 1, ..., k steps |
| Xorshift.OutputsZero | ujmp-core/src/main/java/org/ujmp/core/util/RandomSimple.java:37-46 | seed 0 yields only 0s; any other seed yields no 0 at all |
| Xorshift.IntCast | ujmp-core/src/main/java/org/ujmp/core/util/RandomSimple.java:50 | the `(int)` cast gives a 32-bit signed value congruent to its operand modulo 2^32 |
| Xorshift.TopBits | ujmp-core/src/main/java/org/ujmp/core/util/RandomSimple.java:48-51 | definition (no contract): the state shifted right unsigned by `(64 - bits)` with Java's six-bit masking of the distance, then cast to `int`; its property is `TopBitsRange` |
| Xorshift.TopBitsRange | ujmp-core/src/main/java/org/ujmp/core/util/RandomSimple.java:49-51 | for 1 ≤ bits ≤ 31 `next(bits)` is the state's top `bits` bits read as a number, so it lies in [0, 2^bits) |
| Xorshift.RandomSimple.constructor | ujmp-core/src/main/java/org/ujmp/core/util/RandomSimple.java:37-39 | the state is the seed and nothing has been drawn |
| Xorshift.RandomSimple.NextLong | ujmp-core/src/main/java/org/ujmp/core/util/RandomSimple.java:41-46 | the state advances by one xorshift step and is returned; every value drawn since seeding is determined by the seed |
| Xorshift.RandomSimple.Next | ujmp-core/src/main/java/org/ujmp/core/util/RandomSimple.java:49-51 | exactly one step, then the top `bits` bits of the new state |
| Xorshift.RandomSimple.SetSeed | ujmp-core/src/main/java/org/ujmp/core/util/RandomSimple.java:53-56 | the state becomes the seed whatever came before, and drawing restarts from it |

## Left out

- BigDecimal, `MathContext` rounding, `MathUtil.times`/`divide` and IEEE double arithmetic are not modelled. They are the abstract functions of an `Arith` record. Only `ScalarLaws` fixes one concrete instance, exact real arithmetic.
- Division by zero is not modelled: its outcome lives in `MathUtil` and in Java doubles. `ScalarLaws` requires a nonzero scalar.
- Cell values use the carrier type `real` in the matrix modules. Nothing of the real field is used there except in `ScalarLaws`.
- The accessor view and the raw arrays are separate state. The model does not tie `getDouble` to the `double[][]` contents, so a raw-path write is not visible through `cells`. The conversions `getAsBigDecimal` and `getDouble` are read as the value stored.
- TimesScalar.Calc: requires the source and target to have equal shapes, and requires target rows not to alias a different source row. The library does not check shapes, and out-of-shape writes through setters external to the modelled classes are outside the model.
- TimesScalar.Calc: the model keeps the accessor view (`cells`) and the raw arrays as unlinked state, whereas in Java one array-backed matrix holds both and a write through either is seen through the other. The contract therefore says nothing about the arrays after an accessor path, nor about the view after a raw path.
- DivideScalar.Calc: the same requirements as TimesScalar.Calc, for the same reason.
- DivideScalar.Calc: as for TimesScalar.Calc, the view and the raw arrays are unlinked, and the contract says nothing about the representation the chosen loop does not write.
- TimesScalar.DoubleArray2DCalc: requires a rectangular source and a target of the same dimensions. The ArrayIndexOutOfBounds paths for ragged or short arrays are not modelled.
- TimesScalar.DoubleArray2DCalc: requires the target rows to be pairwise distinct arrays, and no target row to be a source row other than the one at the same index (`RowsSeparate`). Java accepts aliased rows, and the result would then depend on the order of the writes. For the same reason `Matrix.Valid`, through `Matrices.Rectangular`, asks every matrix with a `double[][]` to have pairwise-distinct rows.
- DivideScalar.DoubleArray2DCalc: the same requirements as TimesScalar.DoubleArray2DCalc, including the row-aliasing ones, for the same reasons.
- The `(int)` casts of `getRowCount()`/`getColumnCount()` are not modelled: dimensions are unbounded integers.
- `PForEquidistant` concurrency is not modelled. The parallel branch is a loop that takes the rows one at a time in an arbitrary order. Each row is computed from its own source row only.
- The thread count `UJMPSettings.getNumberOfThreads()` is a parameter.
- `allCoordinates()` comes from `CoordinateIterator`, external to the modelled classes; it is modelled as the row-major enumeration of the shape. `availableCoordinates()` is the key set of the accessor view. `Coordinates` is a value-compared `seq<int>`. `AbstractSparseObjectMatrix.setAsDouble` is modelled as `setObject` with the boxed value.
- `SoftHashMap` garbage collection becomes the explicit `Evict(k)`. When and how often the collector runs is not modelled.
- Xorshift.RandomSimple.NextLong: the three `^=` assignments become one update `x := Step(x)`. `Step` is those three assignments.
- `nextLong` returns the 64-bit pattern. The signed `long` a Java caller sees is not modelled separately.
- The `System.nanoTime()` default constructor is not modelled: the clock is outside the model.
- `super.setSeed` and the `java.util.Random` state it resets are not modelled. Neither are the inherited methods built on `next`, such as `nextInt` and `nextDouble`.
- `synchronized` on `setSeed` is outside a sequential model.
- The file-import source, the Commons Math matrix factory and the `sinh` map are not part of this model. They are I/O, a wrapper over an external library, and a floating-point function without logic of its own.
