/** Pieces shared by the two scanline rasterizers: `Canvas.TexturedTriangle`
    of src/canvas.ts and `Canvas.TexturedTriangle`/`rasterize` of the later
    version in docs/index.js. */
module Scanline {
  /** One pixel a rasterizer visits: its column and row, and the texture
      coordinates u, v and w interpolated there (w doubles as the depth). */
  datatype Frag = Frag(col: int, row: int, u: real, v: real, w: real)

  /** The three compare-and-swaps that order a triangle's corners by row:
      first with second, first with third, then second with third. Each
      corner's other attributes travel with it. */
  function SortByY<T(==)>(a: T, b: T, c: T, y: T -> int): (r: (T, T, T))
    ensures y(r.0) <= y(r.1) <= y(r.2)
    ensures multiset{r.0, r.1, r.2} == multiset{a, b, c}
  {
    var (a1, b1) := if y(b) < y(a) then (b, a) else (a, b);
    var (a2, c1) := if y(c) < y(a1) then (c, a1) else (a1, c);
    var (b2, c2) := if y(c1) < y(b1) then (c1, b1) else (b1, c1);
    (a2, b2, c2)
  }

  /** Corners already in row order are left where they are: every swap is
      guarded by a strict comparison. */
  lemma SortByYKeepsSorted<T>(a: T, b: T, c: T, y: T -> int)
    requires y(a) <= y(b) <= y(c)
    ensures SortByY(a, b, c, y) == (a, b, c)
  {
  }

  /** The interpolation parameter after k steps of `t += 1 / n` from 0. */
  function ColumnParam(k: nat, n: int): (t: real)
    requires n > 0
  {
    k as real * (1.0 / n as real)
  }

  /** k steps of 1/n reach k/n, which lies in [0, 1) while k < n. */
  lemma ColumnParamRatio(k: nat, n: int)
    requires n > 0
    ensures ColumnParam(k, n) == k as real / n as real
    ensures k < n ==> 0.0 <= ColumnParam(k, n) < 1.0
  {
    var t := ColumnParam(k, n);
    assert t * n as real == k as real;
    if k < n {
      assert t * n as real < n as real;
    }
  }

  /** One more step of `t += 1 / n`. */
  lemma ColumnParamStep(k: nat, n: int)
    requires n > 0
    ensures ColumnParam(k + 1, n) == ColumnParam(k, n) + 1.0 / n as real
  {
  }
}
