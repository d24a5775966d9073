/** The drawing surface of src/canvas.ts: a depth buffer of `width*height`
    cells, the textured-triangle scanline rasterizer and its texel lookup.

    The 2D context is I/O; a pixel the rasterizer writes with
    `ctx.fillRect(x, y, 1, 1)` is an update of the `pixels` array at
    `x + width*y`, holding the colour string that was sampled (None where
    the source passes `undefined`). */
module Canvases {
  import opened Maths
  import opened Vectors
  import Triangles
  import opened Scanline

  /** A colour string of the texture, such as `rgba(...)`. */
  type Colour = string

  /** The part of a loaded texture the rasterizer reads: its size and one
      colour string per texel, row by row. */
  datatype Texture = Texture(width: int, height: int, colors: seq<Colour>)

  /** The colour of the texel at column `col` and row `row`, or None where
      `col + width*row` lies outside the colour list. */
  function Texel(tex: Texture, col: int, row: int): (r: Option<Colour>)
    ensures var i := col + tex.width * row;
      (r.Some? <==> 0 <= i < |tex.colors|) && (r.Some? ==> r.value == tex.colors[i])
  {
    var i := col + tex.width * row;
    if 0 <= i < |tex.colors| then Some(tex.colors[i]) else None
  }

  /** `SampleColor`: the texel under (u, v), taking the column and row as
      the floors of `u*width - 0.001` and `v*height - 0.001`; None where
      the source reads past the colour list and gets `undefined`. */
  function SampleColor(u: real, v: real, tex: Texture): (r: Option<Colour>)
    ensures r.Some? ==> r.value in tex.colors
  {
    Texel(tex, Cell(u, tex.width), Cell(v, tex.height))
  }

  /** The column (or row) of a coordinate scaled by the texture's width (or
      height) n. */
  function Cell(u: real, n: int): int {
    Floor(u * n as real - 0.001)
  }

  /** For u and v in (0, 1] (more exactly, u*width and v*height in
      [0.001, width] and [0.001, height]) the sample is an existing texel. */
  lemma SampleInTexture(u: real, v: real, tex: Texture)
    requires tex.width > 0 && tex.height > 0 && |tex.colors| == tex.width * tex.height
    requires Inside(u * tex.width as real, tex.width) && Inside(v * tex.height as real, tex.height)
    ensures SampleColor(u, v, tex).Some?
  {
    AxisInRange(u * tex.width as real, tex.width);
    AxisInRange(v * tex.height as real, tex.height);
    CellInTexture(tex, Cell(u, tex.width), Cell(v, tex.height));
  }

  /** The texel at a column in [0, width) and a row in [0, height) exists. */
  lemma CellInTexture(tex: Texture, col: int, row: int)
    requires |tex.colors| == tex.width * tex.height
    requires 0 <= col < tex.width && 0 <= row < tex.height
    ensures Texel(tex, col, row).Some?
  {
    assert tex.width * row <= tex.width * (tex.height - 1);
  }

  /** A texture coordinate scaled by the texture's size n lies in
      [0.001, n]. */
  predicate Inside(p: real, n: int) {
    0.001 <= p <= n as real
  }

  /** Such a coordinate falls in one of the n texels. */
  lemma AxisInRange(p: real, n: int)
    requires Inside(p, n)
    ensures 0 <= Floor(p - 0.001) < n
  {
  }

  /** `NormalizedToScreenSpace`: x and y move from [-1, 1] to [0, width]
      and [0, height]; z, the texture coordinates and the light level are
      kept. */
  function ScreenSpace(tri: Triangles.Tri, width: real, height: real): (r: Triangles.Tri)
    ensures forall i :: 0 <= i < 3 ==>
      && r.P(i).x == (tri.P(i).x + 1.0) * (0.5 * width)
      && r.P(i).y == (tri.P(i).y + 1.0) * (0.5 * height)
      && r.P(i).z == tri.P(i).z
    ensures Triangles.SameTexAndLight(r, tri)
  {
    var moved := Triangles.AddVector(tri, Vec3D(1.0, 1.0, 0.0, 1.0));
    Triangles.MultiplyVector(moved, Vec3D(0.5 * width, 0.5 * height, 1.0, 1.0))
  }

  /** A corner inside the normalized square [-1, 1] x [-1, 1] lands on the
      screen rectangle [0, width] x [0, height]; -1 goes to 0 and 1 to the
      far edge. */
  lemma ScreenSpaceOnScreen(tri: Triangles.Tri, width: real, height: real, i: int)
    requires 0 <= i < 3 && width >= 0.0 && height >= 0.0
    requires -1.0 <= tri.P(i).x <= 1.0 && -1.0 <= tri.P(i).y <= 1.0
    ensures var p := ScreenSpace(tri, width, height).P(i);
      0.0 <= p.x <= width && 0.0 <= p.y <= height
    ensures tri.P(i).x == -1.0 ==> ScreenSpace(tri, width, height).P(i).x == 0.0
    ensures tri.P(i).x == 1.0 ==> ScreenSpace(tri, width, height).P(i).x == width
  {
    var p := ScreenSpace(tri, width, height).P(i);
    HalfScaled(tri.P(i).x + 1.0, width, p.x);
    HalfScaled(tri.P(i).y + 1.0, height, p.y);
  }

  lemma HalfScaled(a: real, n: real, r: real)
    requires 0.0 <= a <= 2.0 && n >= 0.0 && r == a * (0.5 * n)
    ensures 0.0 <= r <= n
  {
    assert r == (a * 0.5) * n;
    assert (a * 0.5) * n <= 1.0 * n;
  }

  /** One corner as `TexturedTriangle` unpacks it: x, the rounded y, and
      the texture coordinates. */
  datatype Corner = Corner(x: real, y: int, u: real, v: real, w: real)

  function CornerOf(p: Vec3D, t: Vec2D): Corner {
    Corner(p.x, Round(p.y), t.u, t.v, t.w)
  }

  /** The per-row increments: the x of the two edges (`dax_step`,
      `dbx_step`) and of u, v, w along them (`du1_step` ... `dw2_step`). */
  datatype Steps = Steps(ax: real, bx: real, u1: real, v1: real, w1: real, u2: real, v2: real, w2: real)

  /** `d / Math.abs(dy)` under the `if (dy)` guard; `fallback` is the value
      the variable keeps when dy is zero. */
  function StepOf(d: real, dy: int, fallback: real): real {
    if dy != 0 then d / Abs(dy as real) else fallback
  }

  /** The increments of the top half: edge a runs from corner 1 to corner 2,
      edge b from corner 1 to corner 3. */
  function TopSteps(c1: Corner, c2: Corner, c3: Corner): Steps {
    var dy1, dy2 := c2.y - c1.y, c3.y - c1.y;
    Steps(StepOf(c2.x - c1.x, dy1, 0.0), StepOf(c3.x - c1.x, dy2, 0.0),
          StepOf(c2.u - c1.u, dy1, 0.0), StepOf(c2.v - c1.v, dy1, 0.0), StepOf(c2.w - c1.w, dy1, 0.0),
          StepOf(c3.u - c1.u, dy2, 0.0), StepOf(c3.v - c1.v, dy2, 0.0), StepOf(c3.w - c1.w, dy2, 0.0))
  }

  /** The increments of the bottom half: edge a now runs from corner 2 to
      corner 3; `du1_step` and `dv1_step` restart from 0, while `dax_step`,
      `dbx_step` and `dw1_step` keep the top half's value under a zero
      height; edge b's texture steps carry over. */
  function BottomSteps(c1: Corner, c2: Corner, c3: Corner, top: Steps): Steps {
    var dy1, dy2 := c3.y - c2.y, c3.y - c1.y;
    Steps(StepOf(c3.x - c2.x, dy1, top.ax), StepOf(c3.x - c1.x, dy2, top.bx),
          StepOf(c3.u - c2.u, dy1, 0.0), StepOf(c3.v - c2.v, dy1, 0.0), StepOf(c3.w - c2.w, dy1, top.w1),
          top.u2, top.v2, top.w2)
  }

  /** One row of a half: the columns [ax, bx) and the texture coordinates at
      its two ends. */
  datatype Span = Span(row: int, ax: int, bx: int, s: Vec2D, e: Vec2D)

  /** Where edge a (from corner a) and edge b (from corner b) cross row i. */
  function EdgeA(a: Corner, st: Steps, i: int): (int, Vec2D) {
    var k := (i - a.y) as real;
    (Round(a.x + k * st.ax), Vec2D(a.u + k * st.u1, a.v + k * st.v1, a.w + k * st.w1))
  }

  function EdgeB(b: Corner, st: Steps, i: int): (int, Vec2D) {
    var k := (i - b.y) as real;
    (Round(b.x + k * st.bx), Vec2D(b.u + k * st.u2, b.v + k * st.v2, b.w + k * st.w2))
  }

  /** Row i of a half: the two edge crossings, swapped when `ax > bx` so
      that the columns run left to right, each end keeping its texture
      coordinates. */
  function RowSpan(a: Corner, b: Corner, st: Steps, i: int): (r: Span)
    ensures r.row == i && r.ax <= r.bx
  {
    var (ax, s) := EdgeA(a, st, i);
    var (bx, e) := EdgeB(b, st, i);
    if ax > bx then Span(i, bx, ax, e, s) else Span(i, ax, bx, s, e)
  }

  /** The span of row i runs between the two edge crossings, each end
      keeping the texture coordinates of its own edge, and the left end is
      the one further left. */
  lemma RowSpanEnds(a: Corner, b: Corner, st: Steps, i: int)
    ensures var (r, ea, eb) := (RowSpan(a, b, st, i), EdgeA(a, st, i), EdgeB(b, st, i));
      && ((r.ax == ea.0 && r.bx == eb.0 && r.s == ea.1 && r.e == eb.1)
       || (r.ax == eb.0 && r.bx == ea.0 && r.s == eb.1 && r.e == ea.1))
  {
  }

  /** The pixel in column j of a span with the texture coordinates
      `(1 - t) * s + t * e`. */
  function LerpFrag(sp: Span, j: int, t: real): Frag {
    Frag(j, sp.row,
         (1.0 - t) * sp.s.u + t * sp.e.u, (1.0 - t) * sp.s.v + t * sp.e.v, (1.0 - t) * sp.s.w + t * sp.e.w)
  }

  /** The k-th pixel of a span: t has grown by `1 / (bx - ax)` k times. */
  function SpanFrag(sp: Span, k: nat): Frag
    requires k < sp.bx - sp.ax
  {
    LerpFrag(sp, sp.ax + k, ColumnParam(k, sp.bx - sp.ax))
  }

  /** The pixels of a span, left to right. */
  function SpanFrags(sp: Span): (r: seq<Frag>)
    ensures |r| == if sp.ax <= sp.bx then sp.bx - sp.ax else 0
  {
    if sp.ax < sp.bx then seq(sp.bx - sp.ax, k requires 0 <= k < sp.bx - sp.ax => SpanFrag(sp, k)) else []
  }

  /** Inside a span, the pixel in column j carries the interpolation between
      the span's ends with t = (j - ax) / (bx - ax), and t lies in [0, 1). */
  lemma SpanFragLerp(sp: Span, k: nat)
    requires k < sp.bx - sp.ax
    ensures var f := SpanFrags(sp)[k]; var t := (f.col - sp.ax) as real / (sp.bx - sp.ax) as real;
      && f.col == sp.ax + k && f.row == sp.row && 0.0 <= t < 1.0
      && f.u == (1.0 - t) * sp.s.u + t * sp.e.u
      && f.v == (1.0 - t) * sp.s.v + t * sp.e.v
      && f.w == (1.0 - t) * sp.s.w + t * sp.e.w
  {
    ColumnParamRatio(k, sp.bx - sp.ax);
  }

  /** The pixels of rows lo..hi of a half, row by row. */
  function HalfFrags(a: Corner, b: Corner, st: Steps, lo: int, hi: int): seq<Frag>
    decreases hi - lo
  {
    if hi < lo then [] else HalfFrags(a, b, st, lo, hi - 1) + SpanFrags(RowSpan(a, b, st, hi))
  }

  /** Drawing rows lo..i is drawing rows lo..i-1, then row i. */
  lemma HalfFragsStep(fr: Frame, a: Corner, b: Corner, st: Steps, lo: int, i: int, tex: Texture, width: int, height: int)
    requires NonNegative(fr.depth) && lo <= i
    ensures ApplyAll(fr, HalfFrags(a, b, st, lo, i), tex, width, height)
         == ApplyAll(ApplyAll(fr, HalfFrags(a, b, st, lo, i - 1), tex, width, height), SpanFrags(RowSpan(a, b, st, i)), tex, width, height)
  {
    ApplyAllAppend(fr, HalfFrags(a, b, st, lo, i - 1), SpanFrags(RowSpan(a, b, st, i)), tex, width, height);
  }

  /** Every pixel of a half lies in one of its rows. */
  lemma {:induction false} HalfFragsRows(a: Corner, b: Corner, st: Steps, lo: int, hi: int)
    ensures forall f :: f in HalfFrags(a, b, st, lo, hi) ==> lo <= f.row <= hi
    decreases hi - lo
  {
    if lo <= hi {
      HalfFragsRows(a, b, st, lo, hi - 1);
      var sp := RowSpan(a, b, st, hi);
      forall f | f in SpanFrags(sp) ensures f.row == hi {
        var k :| 0 <= k < |SpanFrags(sp)| && SpanFrags(sp)[k] == f;
      }
    }
  }

  /** The corners of the screen-space triangle, sorted by rounded y. */
  function SortedCorners(s: Triangles.Tri): (Corner, Corner, Corner) {
    SortByY(CornerOf(s.p0, s.t0), CornerOf(s.p1, s.t1), CornerOf(s.p2, s.t2), (c: Corner) => c.y)
  }

  /** The pixels of the top half, rows y1..y2, drawn only when y2 != y1. */
  function TopFrags(c1: Corner, c2: Corner, c3: Corner): seq<Frag> {
    if c2.y - c1.y != 0 then HalfFrags(c1, c1, TopSteps(c1, c2, c3), c1.y, c2.y) else []
  }

  /** The pixels of the bottom half, rows y2..y3, drawn only when y3 != y2. */
  function BottomFrags(c1: Corner, c2: Corner, c3: Corner): seq<Frag> {
    var bottom := BottomSteps(c1, c2, c3, TopSteps(c1, c2, c3));
    if c3.y - c2.y != 0 then HalfFrags(c2, c1, bottom, c2.y, c3.y) else []
  }

  /** Every pixel `TexturedTriangle` visits, in order: the top half, then
      the bottom half. */
  function TriangleFrags(tri: Triangles.Tri, width: real, height: real): seq<Frag> {
    var (c1, c2, c3) := SortedCorners(ScreenSpace(tri, width, height));
    TopFrags(c1, c2, c3) + BottomFrags(c1, c2, c3)
  }

  /** Every visited pixel lies between the top and the bottom row. */
  lemma TriangleFragsRows(tri: Triangles.Tri, width: real, height: real)
    ensures var (c1, c2, c3) := SortedCorners(ScreenSpace(tri, width, height));
      forall f :: f in TriangleFrags(tri, width, height) ==> c1.y <= f.row <= c3.y
  {
    var (c1, c2, c3) := SortedCorners(ScreenSpace(tri, width, height));
    HalfFragsRows(c1, c1, TopSteps(c1, c2, c3), c1.y, c2.y);
    HalfFragsRows(c2, c1, BottomSteps(c1, c2, c3, TopSteps(c1, c2, c3)), c2.y, c3.y);
  }

  /** A triangle whose corners round to one row visits no pixel: both halves
      have zero height. */
  lemma FlatTriangleDrawsNothing(tri: Triangles.Tri, width: real, height: real)
    requires var s := ScreenSpace(tri, width, height); Round(s.p0.y) == Round(s.p1.y) == Round(s.p2.y)
    ensures TriangleFrags(tri, width, height) == []
  {
  }

  /** No depth below zero: `clear` fills with 0 and writes only raise it. */
  predicate NonNegative(depth: seq<real>) {
    forall k :: 0 <= k < |depth| ==> depth[k] >= 0.0
  }

  /** The depth buffer and the pixels, as values. */
  datatype Frame = Frame(depth: seq<real>, pixels: seq<Option<Colour>>)

  /** The effect of one visited pixel: when its w exceeds the stored depth at
      `row*width + col`, the pixel is drawn (on the canvas only) with the
      colour sampled at (u/w, v/w) and the depth becomes w. An index outside
      the buffer reads `undefined`, which no number exceeds. */
  function Plotted(fr: Frame, f: Frag, tex: Texture, width: int, height: int): (r: Frame)
    requires NonNegative(fr.depth)
  {
    var k := f.row * width + f.col;
    if 0 <= k < |fr.depth| && f.w > fr.depth[k] then
      var onCanvas := 0 <= f.col < width && 0 <= f.row < height && k < |fr.pixels|;
      Frame(fr.depth[k := f.w],
            if onCanvas then fr.pixels[k := SampleColor(f.u / f.w, f.v / f.w, tex)] else fr.pixels)
    else fr
  }

  /** The pixels visited in order. No depth becomes negative and the
      buffers keep their sizes. */
  function ApplyAll(fr: Frame, frags: seq<Frag>, tex: Texture, width: int, height: int): (r: Frame)
    requires NonNegative(fr.depth)
    ensures NonNegative(r.depth)
    ensures |r.depth| == |fr.depth| && |r.pixels| == |fr.pixels|
    decreases |frags|
  {
    if |frags| == 0 then fr
    else
      var before := ApplyAll(fr, frags[..|frags| - 1], tex, width, height);
      Plotted(before, frags[|frags| - 1], tex, width, height)
  }

  /** No depth ever decreases. */
  lemma {:induction false} ApplyAllDeepens(fr: Frame, frags: seq<Frag>, tex: Texture, width: int, height: int, k: int)
    requires NonNegative(fr.depth) && 0 <= k < |fr.depth|
    ensures ApplyAll(fr, frags, tex, width, height).depth[k] >= fr.depth[k]
    decreases |frags|
  {
    if |frags| > 0 {
      ApplyAllDeepens(fr, frags[..|frags| - 1], tex, width, height, k);
    }
  }

  /** Visiting a list and then another is visiting their concatenation. */
  lemma {:induction false} ApplyAllAppend(fr: Frame, xs: seq<Frag>, ys: seq<Frag>, tex: Texture, width: int, height: int)
    requires NonNegative(fr.depth)
    ensures ApplyAll(fr, xs + ys, tex, width, height) == ApplyAll(ApplyAll(fr, xs, tex, width, height), ys, tex, width, height)
    decreases |ys|
  {
    if |ys| == 0 {
      assert xs + ys == xs;
    } else {
      var n := |ys| - 1;
      assert (xs + ys)[..|xs + ys| - 1] == xs + ys[..n];
      assert (xs + ys)[|xs + ys| - 1] == ys[n];
      ApplyAllAppend(fr, xs, ys[..n], tex, width, height);
    }
  }

  /** Visiting one more pixel of a list. */
  lemma ApplyAllPrefixStep(fr: Frame, frags: seq<Frag>, k: nat, tex: Texture, width: int, height: int)
    requires NonNegative(fr.depth) && k < |frags|
    ensures ApplyAll(fr, frags[..k + 1], tex, width, height)
         == Plotted(ApplyAll(fr, frags[..k], tex, width, height), frags[k], tex, width, height)
  {
    assert frags[..k + 1][..k] == frags[..k];
  }

  /** The depth buffer ends at least as deep (w) as every visited pixel
      that addresses a cell of it: the z-buffer keeps the largest w. */
  lemma {:induction false} ApplyAllKeepsNearest(fr: Frame, frags: seq<Frag>, tex: Texture, width: int, height: int)
    requires NonNegative(fr.depth)
    ensures var r := ApplyAll(fr, frags, tex, width, height);
      forall f :: f in frags && 0 <= f.row * width + f.col < |fr.depth| ==> r.depth[f.row * width + f.col] >= f.w
    decreases |frags|
  {
    if |frags| > 0 {
      var n := |frags| - 1;
      ApplyAllKeepsNearest(fr, frags[..n], tex, width, height);
      var before := ApplyAll(fr, frags[..n], tex, width, height);
      var r := ApplyAll(fr, frags, tex, width, height);
      assert r == Plotted(before, frags[n], tex, width, height);
      forall f | f in frags && 0 <= f.row * width + f.col < |fr.depth|
        ensures r.depth[f.row * width + f.col] >= f.w
      {
        var k := f.row * width + f.col;
        if f != frags[n] {
          assert f in frags[..n];
          assert before.depth[k] >= f.w;
        }
      }
    }
  }

  /** Each depth cell ends with its old value or with the w of a visited
      pixel that addresses it. */
  lemma {:induction false} ApplyAllDepthFrom(fr: Frame, frags: seq<Frag>, tex: Texture, width: int, height: int, k: int)
    requires NonNegative(fr.depth) && 0 <= k < |fr.depth|
    ensures var d := ApplyAll(fr, frags, tex, width, height).depth[k];
      d == fr.depth[k] || exists f :: f in frags && f.row * width + f.col == k && f.w == d
    decreases |frags|
  {
    if |frags| > 0 {
      var n := |frags| - 1;
      ApplyAllDepthFrom(fr, frags[..n], tex, width, height, k);
      var before := ApplyAll(fr, frags[..n], tex, width, height);
      var d := ApplyAll(fr, frags, tex, width, height).depth[k];
      if d != before.depth[k] {
        assert frags[n] in frags;
      } else if d != fr.depth[k] {
        var f :| f in frags[..n] && f.row * width + f.col == k && f.w == before.depth[k];
        assert f in frags;
      }
    }
  }

  /** A depth cell that no visited pixel addresses keeps its value. */
  lemma {:induction false} ApplyAllUntouched(fr: Frame, frags: seq<Frag>, tex: Texture, width: int, height: int, k: int)
    requires NonNegative(fr.depth) && 0 <= k < |fr.depth|
    requires forall f :: f in frags ==> f.row * width + f.col != k
    ensures ApplyAll(fr, frags, tex, width, height).depth[k] == fr.depth[k]
    decreases |frags|
  {
    if |frags| > 0 {
      var n := |frags| - 1;
      assert forall f :: f in frags[..n] ==> f in frags;
      ApplyAllUntouched(fr, frags[..n], tex, width, height, k);
    }
  }

  class Canvas {
    const width: int
    const height: int
    var depthBuffer: array<real>
    var pixels: array<Option<Colour>>

    /** Both buffers have one cell per pixel and no depth is negative. */
    ghost predicate Valid()
      reads this, depthBuffer
    {
      && 0 <= width && 0 <= height
      && depthBuffer.Length == width * height && pixels.Length == width * height
      && NonNegative(depthBuffer[..])
    }

    /** The buffers' contents. */
    function Snapshot(): Frame
      reads this, depthBuffer, pixels
    {
      Frame(depthBuffer[..], pixels[..])
    }

    /** `SetupCanvas` with the measured size, followed by the first `clear`
        (the source allocates the depth buffer in `clear`). */
    constructor (width: nat, height: nat, background: Colour)
      ensures Valid() && this.width == width && this.height == height
      ensures forall k :: 0 <= k < depthBuffer.Length ==> depthBuffer[k] == 0.0
      ensures forall k :: 0 <= k < pixels.Length ==> pixels[k] == Some(background)
    {
      this.width := width;
      this.height := height;
      depthBuffer := new real[width * height](_ => 0.0);
      pixels := new Option<Colour>[width * height](_ => Some(background));
    }

    /** `clear`: the canvas is filled with the background colour and a new
        depth buffer of `width*height` zeros replaces the old one. */
    method Clear(background: Colour)
      requires Valid()
      modifies this
      ensures Valid() && fresh(depthBuffer) && fresh(pixels)
      ensures depthBuffer.Length == width * height
      ensures forall k :: 0 <= k < depthBuffer.Length ==> depthBuffer[k] == 0.0
      ensures forall k :: 0 <= k < pixels.Length ==> pixels[k] == Some(background)
    {
      depthBuffer := new real[width * height](_ => 0.0);
      pixels := new Option<Colour>[width * height](_ => Some(background));
    }

    /** The depth test and write for one pixel. */
    method Plot(f: Frag, tex: Texture)
      requires Valid()
      modifies depthBuffer, pixels
      ensures Valid()
      ensures Snapshot() == Plotted(old(Snapshot()), f, tex, width, height)
    {
      var k := f.row * width + f.col;
      if 0 <= k < depthBuffer.Length && f.w > depthBuffer[k] {
        if 0 <= f.col < width && 0 <= f.row < height {
          pixels[k] := SampleColor(f.u / f.w, f.v / f.w, tex);
        }
        depthBuffer[k] := f.w;
      }
    }

    /** The column loop of one row: t starts at 0 and grows by
        `1 / (bx - ax)` per column. */
    method DrawSpan(sp: Span, tex: Texture)
      requires Valid() && sp.ax <= sp.bx
      modifies depthBuffer, pixels
      ensures Valid()
      ensures Snapshot() == ApplyAll(old(Snapshot()), SpanFrags(sp), tex, width, height)
    {
      ghost var f0 := Snapshot();
      var tStep := if sp.ax < sp.bx then 1.0 / (sp.bx - sp.ax) as real else 0.0;
      ColumnParamZero(sp.bx - sp.ax);
      var t := 0.0;
      var j := sp.ax;
      while j < sp.bx
        invariant sp.ax <= j <= sp.bx
        invariant t == ColumnParamOr0(j - sp.ax, sp.bx - sp.ax)
        invariant Valid()
        invariant Snapshot() == ApplyAll(f0, SpanFrags(sp)[..j - sp.ax], tex, width, height)
      {
        var k: nat := j - sp.ax;
        var f := LerpFrag(sp, j, t);
        assert f == SpanFrags(sp)[k];
        Plot(f, tex);
        ApplyAllPrefixStep(f0, SpanFrags(sp), k, tex, width, height);
        ColumnParamStep(k, sp.bx - sp.ax);
        t := t + tStep;
        j := j + 1;
      }
      assert SpanFrags(sp)[..j - sp.ax] == SpanFrags(sp);
    }

    /** The row loop of one half, rows lo..hi. */
    method DrawHalf(a: Corner, b: Corner, st: Steps, lo: int, hi: int, tex: Texture)
      requires Valid() && lo <= hi
      modifies depthBuffer, pixels
      ensures Valid()
      ensures Snapshot() == ApplyAll(old(Snapshot()), HalfFrags(a, b, st, lo, hi), tex, width, height)
    {
      ghost var f0 := Snapshot();
      for i := lo to hi + 1
        invariant Valid()
        invariant Snapshot() == ApplyAll(f0, HalfFrags(a, b, st, lo, i - 1), tex, width, height)
      {
        HalfFragsStep(f0, a, b, st, lo, i, tex, width, height);
        DrawSpan(RowSpan(a, b, st, i), tex);
      }
    }

    /** `TexturedTriangle`: the triangle moves to screen space, its corners
        are sorted by rounded y, and the two halves are drawn row by row
        with the depth test. */
    method TexturedTriangle(tri: Triangles.Tri, tex: Texture)
      requires Valid()
      modifies depthBuffer, pixels
      ensures Valid()
      ensures Snapshot() == ApplyAll(old(Snapshot()), TriangleFrags(tri, width as real, height as real), tex, width, height)
    {
      ghost var f0 := Snapshot();
      var s := ScreenSpace(tri, width as real, height as real);
      var (c1, c2, c3) := SortedCorners(s);
      var top := TopSteps(c1, c2, c3);
      if c2.y - c1.y != 0 {
        DrawHalf(c1, c1, top, c1.y, c2.y, tex);
      }
      var bottom := BottomSteps(c1, c2, c3, top);
      if c3.y - c2.y != 0 {
        DrawHalf(c2, c1, bottom, c2.y, c3.y, tex);
      }
      ApplyAllAppend(f0, TopFrags(c1, c2, c3), BottomFrags(c1, c2, c3), tex, width, height);
    }
  }

  /** The parameter t of the column loop: 0 for an empty span. */
  function ColumnParamOr0(k: nat, n: int): real {
    if n > 0 then ColumnParam(k, n) else 0.0
  }

  lemma ColumnParamZero(n: int)
    ensures ColumnParamOr0(0, n) == 0.0
  {
  }
}
