/**
 * The raw-storage loops of the DENSEDOUBLEMATRIX2D handlers, on `double[]` rows.
 *
 * Source and target may be the same array (an in-place operation): each index
 * is read before it is written, so the result is computed from the old source.
 */
module RawArrays {

  /** The row indices `0 .. n-1`, the range a parallel for-each over rows covers. */
  function Indices(n: int): (r: set<int>)
    ensures forall i :: i in r <==> 0 <= i < n
    decreases n
  {
    if n <= 0 then {} else Indices(n - 1) + {n - 1}
  }

  /** `for (int c = 0; c < n; c++) tgt[c] = f(src[c])`. */
  method MapRowUp<V>(src: array<V>, tgt: array<V>, n: int, f: V -> V)
    requires 0 <= n <= src.Length && n <= tgt.Length
    modifies tgt
    ensures forall k :: 0 <= k < n ==> tgt[k] == f(old(src[k]))
    ensures forall k :: n <= k < tgt.Length ==> tgt[k] == old(tgt[k])
  {
    var c := 0;
    while c < n
      invariant 0 <= c <= n
      invariant forall k :: 0 <= k < c ==> tgt[k] == f(old(src[k]))
      invariant forall k :: c <= k < src.Length ==> src[k] == old(src[k])
      invariant forall k :: c <= k < tgt.Length ==> tgt[k] == old(tgt[k])
    {
      tgt[c] := f(src[c]);
      c := c + 1;
    }
  }

  /** `for (int c = n; --c != -1;) tgt[c] = f(src[c])`. */
  method MapRowDown<V>(src: array<V>, tgt: array<V>, n: int, f: V -> V)
    requires 0 <= n <= src.Length && n <= tgt.Length
    modifies tgt
    ensures forall k :: 0 <= k < n ==> tgt[k] == f(old(src[k]))
    ensures forall k :: n <= k < tgt.Length ==> tgt[k] == old(tgt[k])
  {
    var c := n - 1;
    while c != -1
      invariant -1 <= c < n
      invariant forall k :: c < k < n ==> tgt[k] == f(old(src[k]))
      invariant forall k :: 0 <= k <= c ==> src[k] == old(src[k])
      invariant forall k :: 0 <= k <= c || n <= k < tgt.Length ==> tgt[k] == old(tgt[k])
    {
      tgt[c] := f(src[c]);
      c := c - 1;
    }
  }

  /**
   * The `double[]` overload: `for (int i = 0; i < source.length; i++) target[i] = f(source[i])`.
   * A target shorter than the source makes Java throw once the loop reaches the
   * target's end; `ok` is false then, and the indices below that end are written.
   */
  method Array1D<V>(source: array<V>, target: array<V>, f: V -> V) returns (ok: bool)
    modifies target
    ensures ok == (source.Length <= target.Length)
    ensures forall k :: 0 <= k < source.Length && k < target.Length ==> target[k] == f(old(source[k]))
    ensures forall k :: source.Length <= k < target.Length ==> target[k] == old(target[k])
  {
    var length := source.Length;
    var i := 0;
    while i < length
      invariant 0 <= i <= length
      invariant i <= target.Length
      invariant forall k :: 0 <= k < i ==> target[k] == f(old(source[k]))
      invariant forall k :: i <= k < length ==> source[k] == old(source[k])
      invariant forall k :: i <= k < target.Length ==> target[k] == old(target[k])
    {
      if i >= target.Length {
        return false;
      }
      target[i] := f(source[i]);
      i := i + 1;
    }
    return true;
  }
}
