/**
 * Shapes and the coordinates they span.
 *
 * A matrix shape is a vector of dimension sizes (a `long[]` in the library).
 * `AllCoordinates(shape)` is the full cross product of the per-dimension ranges
 * in row-major order, the sequence a coordinate iterator over the shape yields.
 * A negative dimension size spans no coordinates.
 */
module Shapes {

  /** `c` addresses a cell of `shape`: one index per dimension, each in range. */
  predicate InShape(c: seq<int>, shape: seq<int>) {
    |c| == |shape| && forall i :: 0 <= i < |c| ==> 0 <= c[i] < shape[i]
  }

  /** No element occurs twice. */
  predicate Distinct<T(==)>(s: seq<T>) {
    forall i, j :: 0 <= i < j < |s| ==> s[i] != s[j]
  }

  /** Every tail coordinate, with `i` put in front of it. */
  function Prefixed(i: int, tails: seq<seq<int>>): seq<seq<int>> {
    seq(|tails|, k requires 0 <= k < |tails| => [i] + tails[k])
  }

  /** The tails prefixed by 0, then by 1, ..., then by n - 1. */
  function Layers(n: int, tails: seq<seq<int>>): seq<seq<int>>
    decreases n
  {
    if n <= 0 then [] else Layers(n - 1, tails) + Prefixed(n - 1, tails)
  }

  /** The coordinates of `shape`, first dimension outermost. */
  function AllCoordinates(shape: seq<int>): seq<seq<int>>
    decreases |shape|
  {
    if shape == [] then [[]] else Layers(shape[0], AllCoordinates(shape[1..]))
  }

  /** The coordinates of `shape` as a set. */
  function CoordinateSet(shape: seq<int>): set<seq<int>> {
    set c | c in AllCoordinates(shape)
  }

  /** Number of cells of `shape`: the product of the dimension sizes. */
  function Volume(shape: seq<int>): nat
    decreases |shape|
  {
    if shape == [] then 1 else (if shape[0] <= 0 then 0 else shape[0]) * Volume(shape[1..])
  }

  /** The cells `[r, c]` of a `rows` x `cols` matrix. */
  function Grid(rows: int, cols: int): set<seq<int>> {
    set r, c | 0 <= r < rows && 0 <= c < cols :: [r, c]
  }

  lemma {:induction false} LayersMembership(n: int, tails: seq<seq<int>>, c: seq<int>)
    ensures c in Layers(n, tails) <==> |c| >= 1 && 0 <= c[0] < n && c[1..] in tails
    decreases n
  {
    if n > 0 {
      LayersMembership(n - 1, tails, c);
      var p := Prefixed(n - 1, tails);
      if c in p {
        var k :| 0 <= k < |p| && p[k] == c;
        assert c[1..] == tails[k];
      }
      if |c| >= 1 && c[0] == n - 1 && c[1..] in tails {
        var k :| 0 <= k < |tails| && tails[k] == c[1..];
        assert p[k] == c;
      }
    }
  }

  /** A coordinate is enumerated exactly when it lies inside the shape. */
  lemma {:induction false} AllCoordinatesMembership(shape: seq<int>, c: seq<int>)
    ensures c in AllCoordinates(shape) <==> InShape(c, shape)
    decreases |shape|
  {
    if shape != [] {
      LayersMembership(shape[0], AllCoordinates(shape[1..]), c);
      if |c| >= 1 {
        AllCoordinatesMembership(shape[1..], c[1..]);
        if InShape(c, shape) {
          assert forall i :: 0 <= i < |c[1..]| ==> 0 <= c[1..][i] < shape[1..][i] by {
            forall i | 0 <= i < |c[1..]| ensures 0 <= c[1..][i] < shape[1..][i] {
              assert c[1..][i] == c[i + 1];
            }
          }
        }
        if c[1..] in AllCoordinates(shape[1..]) && 0 <= c[0] < shape[0] {
          forall i | 0 <= i < |c| ensures 0 <= c[i] < shape[i] {
            if i > 0 { assert c[i] == c[1..][i - 1]; }
          }
        }
      }
    } else {
      assert InShape(c, shape) <==> c == [];
    }
  }

  lemma {:induction false} LayersFirstIndex(n: int, tails: seq<seq<int>>, k: int)
    requires 0 <= k < |Layers(n, tails)|
    ensures |Layers(n, tails)[k]| >= 1 && 0 <= Layers(n, tails)[k][0] < n
    decreases n
  {
    var x := Layers(n, tails)[k];
    LayersMembership(n, tails, x);
  }

  /** Putting the same index in front of distinct tails keeps them distinct. */
  lemma PrefixedDistinct(m: int, tails: seq<seq<int>>)
    requires Distinct(tails)
    ensures Distinct(Prefixed(m, tails))
  {
    var p := Prefixed(m, tails);
    forall i, j | 0 <= i < j < |p| ensures p[i] != p[j] {
      assert p[i][1..] == tails[i] && p[j][1..] == tails[j];
    }
  }

  lemma {:induction false} LayersDistinct(n: int, tails: seq<seq<int>>)
    requires Distinct(tails)
    ensures Distinct(Layers(n, tails))
    decreases n
  {
    if n > 0 {
      LayersDistinct(n - 1, tails);
      var a, p := Layers(n - 1, tails), Prefixed(n - 1, tails);
      var l := a + p;
      forall i, j | 0 <= i < j < |l| ensures l[i] != l[j] {
        if j < |a| {
          assert l[i] == a[i] && l[j] == a[j];
        } else if i >= |a| {
          PrefixedDistinct(n - 1, tails);
          assert l[i] == p[i - |a|] && l[j] == p[j - |a|];
        } else {
          LayersFirstIndex(n - 1, tails, i);
          assert l[i] == a[i] && l[j] == p[j - |a|];
          assert l[j][0] == n - 1;
        }
      }
    }
  }

  /** The enumeration visits every coordinate once. */
  lemma {:induction false} AllCoordinatesDistinct(shape: seq<int>)
    ensures Distinct(AllCoordinates(shape))
    decreases |shape|
  {
    if shape != [] {
      AllCoordinatesDistinct(shape[1..]);
      LayersDistinct(shape[0], AllCoordinates(shape[1..]));
    }
  }

  lemma {:induction false} LayersCount(n: int, tails: seq<seq<int>>)
    ensures |Layers(n, tails)| == (if n <= 0 then 0 else n) * |tails|
    decreases n
  {
    if n > 0 {
      LayersCount(n - 1, tails);
      assert (n - 1) * |tails| + |tails| == n * |tails|;
    }
  }

  /** The enumeration has exactly one entry per cell of the shape. */
  lemma {:induction false} AllCoordinatesCount(shape: seq<int>)
    ensures |AllCoordinates(shape)| == Volume(shape)
    decreases |shape|
  {
    if shape != [] {
      AllCoordinatesCount(shape[1..]);
      LayersCount(shape[0], AllCoordinates(shape[1..]));
    }
  }

  /** The cells a two-dimensional row/column loop visits are the coordinates of the shape. */
  lemma GridIsCoordinateSet(rows: int, cols: int)
    ensures Grid(rows, cols) == CoordinateSet([rows, cols])
  {
    forall c ensures c in Grid(rows, cols) <==> c in CoordinateSet([rows, cols]) {
      AllCoordinatesMembership([rows, cols], c);
      if InShape(c, [rows, cols]) {
        assert c == [c[0], c[1]];
      }
    }
  }

  /** A sequence without repetitions has as many distinct elements as entries. */
  lemma {:induction false} DistinctCardinality<T>(s: seq<T>)
    requires Distinct(s)
    ensures |set x | x in s| == |s|
  {
    if s != [] {
      var init := s[..|s| - 1];
      var last := s[|s| - 1];
      assert Distinct(init);
      DistinctCardinality(init);
      assert last !in init by {
        forall k | 0 <= k < |init| ensures init[k] != last {
          assert init[k] == s[k];
        }
      }
      assert s == init + [last];
      assert (set x | x in s) == (set x | x in init) + {last};
    }
  }

  /** The coordinate set holds exactly the cells of the shape, one per unit of volume. */
  lemma CoordinateSetShape(shape: seq<int>)
    ensures forall c :: c in CoordinateSet(shape) <==> InShape(c, shape)
    ensures |CoordinateSet(shape)| == Volume(shape)
  {
    forall c ensures c in CoordinateSet(shape) <==> InShape(c, shape) {
      AllCoordinatesMembership(shape, c);
    }
    AllCoordinatesDistinct(shape);
    DistinctCardinality(AllCoordinates(shape));
    AllCoordinatesCount(shape);
  }
}
