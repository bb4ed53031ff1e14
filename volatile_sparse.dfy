/**
 * VolatileSparseObjectMatrix: a sparse matrix of objects whose entries may be
 * dropped by the garbage collector.
 *
 * The matrix is a shape (`size`, a `long[]`) and a map from coordinates to
 * objects (`values`, a soft-reference map). A coordinate is compared by value.
 * The collector's removals are the explicit operation `Evict`, which only ever
 * deletes a key; a ghost record of every key ever written shows that nothing
 * but writes ever adds one.
 */
module SparseStore {
  import opened Shapes
  import Matrices

  /** A Java object reference: `null` or an object. */
  datatype Nullable<T> = Null | NonNull(value: T)

  /** `Coordinates.copyOf(a)`: a new array with the same entries. */
  method CopyOf(a: array<int>) returns (b: array<int>)
    ensures fresh(b) && b[..] == a[..]
  {
    b := new int[a.Length](i requires 0 <= i < a.Length reads a => a[i]);
  }

  /** A new array holding the dimension sizes of `shape`. */
  method ToArray(shape: seq<int>) returns (b: array<int>)
    ensures fresh(b) && b[..] == shape
  {
    b := new int[|shape|](i requires 0 <= i < |shape| => shape[i]);
  }

  class VolatileSparseObjectMatrix<V> {
    /** `size`: the shape. `getSize()` hands out this very array. */
    const size: array<int>
    /** `values`: the stored entries. A stored `null` counts as stored. */
    var values: map<seq<int>, Nullable<V>>
    /** Every coordinate a value was ever written at. */
    ghost var everSet: set<seq<int>>

    /** Stored keys come only from writes: nothing else creates an entry. */
    ghost predicate Valid()
      reads this
    {
      values.Keys <= everSet
    }

    /**
     * `new VolatileSparseObjectMatrix(size...)`: the shape is a copy of the
     * argument, so later writes to the argument leave it alone. Nothing is stored.
     */
    constructor(dims: array<int>)
      ensures Valid()
      ensures fresh(size) && size[..] == dims[..]
      ensures values == map[] && everSet == {}
    {
      var copy := CopyOf(dims);
      size := copy;
      values := map[];
      everSet := {};
    }

    /**
     * `new VolatileSparseObjectMatrix(m)`: the shape of `m`, then one value per
     * coordinate of `m.allCoordinates()`, the number `m` holds there (`zero`
     * where it holds none). Afterwards every cell of the shape is stored, and nothing else.
     */
    constructor Copy(m: Matrices.Matrix<V>, zero: V)
      ensures Valid()
      ensures fresh(size) && size[..] == m.shape
      ensures forall c :: c in values <==> InShape(c, m.shape)
      ensures forall c :: c in values ==> values[c] == NonNull(m.Get(c, zero))
      ensures |values| == Volume(m.shape)
      ensures everSet == values.Keys
    {
      var copy := ToArray(m.shape);  // Coordinates.copyOf(m.getSize())
      size := copy;
      values := map[];
      everSet := {};
      new;
      var coords := AllCoordinates(m.shape);
      ghost var done: set<seq<int>> := {};
      var i := 0;
      while i < |coords|
        invariant 0 <= i <= |coords|
        invariant size[..] == m.shape
        invariant forall k :: k in done <==> k in coords[..i]
        invariant values.Keys == done && everSet == done
        invariant forall c :: c in values ==> values[c] == NonNull(m.Get(c, zero))
      {
        var c := coords[i];
        values := values[c := NonNull(m.Get(c, zero))];  // setAsDouble(m.getAsDouble(c), c)
        everSet := everSet + {c};
        assert coords[..i + 1] == coords[..i] + [c];
        done := done + {c};
        i := i + 1;
      }
      assert coords[..i] == coords;
      assert done == CoordinateSet(m.shape);
      CoordinateSetShape(m.shape);
    }

    /** `isTransient()`: entries may vanish. */
    method IsTransient() returns (b: bool)
      ensures b
    {
      b := true;
    }

    /** `getSize()`: the shape array itself, not a copy. */
    method GetSize() returns (r: array<int>)
      ensures r == size
    {
      r := size;
    }

    /** `getObject(c)`: the object stored at `c`, or `null` when nothing is stored there. */
    method GetObject(c: seq<int>) returns (r: Nullable<V>)
      ensures c in values ==> r == values[c]
      ensures c !in values ==> r == Null
    {
      r := if c in values then values[c] else Null;
    }

    /** `getValueCount()`: the number of stored coordinates. */
    method GetValueCount() returns (n: int)
      ensures n == |values|
    {
      n := |values|;
    }

    /**
     * `setObject(v, c)`: `c` now holds `v`; every other entry is as it was.
     * There is no bounds check: a coordinate outside the shape is stored too.
     */
    method SetObject(v: Nullable<V>, c: seq<int>)
      requires Valid()
      modifies this
      ensures Valid()
      ensures values == old(values)[c := v]
      ensures everSet == old(everSet) + {c}
    {
      values := values[c := v];
      everSet := everSet + {c};
    }

    /** `contains(c)`: whether anything, `null` included, is stored at `c`. */
    method Contains(c: seq<int>) returns (b: bool)
      ensures b <==> c in values
    {
      b := c in values;
    }

    /**
     * `allCoordinates()`: every cell of the current shape, each once and in
     * row-major order, whether or not anything is stored there.
     */
    method AllCoordinatesOf() returns (cs: seq<seq<int>>)
      ensures forall c :: c in cs <==> InShape(c, size[..])
      ensures Distinct(cs)
      ensures |cs| == Volume(size[..])
    {
      cs := AllCoordinates(size[..]);
      forall c ensures c in cs <==> InShape(c, size[..]) {
        AllCoordinatesMembership(size[..], c);
      }
      AllCoordinatesDistinct(size[..]);
      AllCoordinatesCount(size[..]);
    }

    /** `entries()`: exactly the stored coordinates. */
    method Entries() returns (ks: set<seq<int>>)
      ensures forall c :: c in ks <==> c in values
    {
      ks := values.Keys;
    }

    /**
     * The soft map dropping the entry at `k`, as the collector may at any time.
     * No key is added, no surviving value changes, the shape stays.
     */
    method Evict(k: seq<int>)
      requires Valid()
      modifies this
      ensures Valid()
      ensures values == old(values) - {k}
      ensures everSet == old(everSet)
    {
      values := values - {k};
    }
  }

  /**
   * Reading back a write: after `setObject(v, c)`, `getObject(c)` is `v` and
   * `contains(c)` holds; any other coordinate `d` reads and tests as it did
   * before the write.
   */
  method ReadAfterWrite<V>(m: VolatileSparseObjectMatrix<V>, v: Nullable<V>, c: seq<int>, d: seq<int>)
      returns (r: Nullable<V>, found: bool, other: Nullable<V>, otherFound: bool)
    requires m.Valid()
    modifies m
    ensures m.Valid()
    ensures r == v && found
    ensures d != c ==> otherFound == (d in old(m.values))
    ensures d != c ==> other == (if d in old(m.values) then old(m.values[d]) else Null)
  {
    m.SetObject(v, c);
    r := m.GetObject(c);
    found := m.Contains(c);
    other := m.GetObject(d);
    otherFound := m.Contains(d);
  }

  /** One change to the store: a `setObject` call, or the collector dropping an entry. */
  datatype Change<V> = Write(v: Nullable<V>, c: seq<int>) | Drop(k: seq<int>)

  /** The entries after the changes, applied in order, to `values`. */
  function Replay<V>(values: map<seq<int>, Nullable<V>>, changes: seq<Change<V>>): map<seq<int>, Nullable<V>>
    decreases |changes|
  {
    if changes == [] then values
    else
      var before := Replay(values, changes[..|changes| - 1]);
      match changes[|changes| - 1]
      case Write(v, c) => before[c := v]
      case Drop(k) => before - {k}
  }

  /** The coordinates the changes write at. */
  function Written<V>(changes: seq<Change<V>>): set<seq<int>>
    decreases |changes|
  {
    if changes == [] then {}
    else
      var before := Written(changes[..|changes| - 1]);
      match changes[|changes| - 1]
      case Write(_, c) => before + {c}
      case Drop(_) => before
  }

  /**
   * Whatever writes and evictions happen, in any order, every stored key was
   * stored before or written since, and a key not written since holds the
   * value it held before: evictions only ever remove.
   */
  lemma {:induction false} ReplayOnlyWritesAdd<V>(values: map<seq<int>, Nullable<V>>, changes: seq<Change<V>>)
    ensures Replay(values, changes).Keys <= values.Keys + Written(changes)
    ensures forall c :: c in Replay(values, changes) && c !in Written(changes) ==>
              c in values && Replay(values, changes)[c] == values[c]
  {
    if changes != [] {
      ReplayOnlyWritesAdd(values, changes[..|changes| - 1]);
    }
  }

  /**
   * Any interleaving of `setObject` calls and evictions, made on the class: the
   * entries afterwards are `Replay` of the entries before, and `Valid` holds throughout.
   */
  method Run<V>(m: VolatileSparseObjectMatrix<V>, changes: seq<Change<V>>)
    requires m.Valid()
    modifies m
    ensures m.Valid()
    ensures m.values == Replay(old(m.values), changes)
    ensures m.everSet == old(m.everSet) + Written(changes)
  {
    var i := 0;
    while i < |changes|
      invariant 0 <= i <= |changes|
      invariant m.Valid()
      invariant m.values == Replay(old(m.values), changes[..i])
      invariant m.everSet == old(m.everSet) + Written(changes[..i])
    {
      assert changes[..i + 1][..i] == changes[..i];
      match changes[i] {
        case Write(v, c) => m.SetObject(v, c);
        case Drop(k) => m.Evict(k);
      }
      i := i + 1;
    }
    assert changes[..i] == changes;
  }
}
