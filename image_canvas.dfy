/** The drawing surface of the later version in docs/index.js: the canvas
    keeps its image as one packed 32-bit colour per pixel (`uint32View` over
    `imageData`), a `Uint32Array` depth buffer holding `w * HalfMax32UInt`,
    and copies of both taken at setup that `clear` restores. Triangles are
    drawn by `TexturedTriangle`, which computes edge steps with `getStep` and
    walks rows with `rasterize`; `DrawPixel` shades a texel by the
    triangle's luminance. */
module ImageCanvases {
  import opened Maths
  import opened Vectors
  import Triangles
  import opened Scanline
  import Canvases

  /** `HalfMax32UInt` (2^16 - 1): the factor from w to a stored depth. */
  const HalfMax32UInt: int := 65535

  /** 2^32: a `Uint32Array` cell holds the integers below it. */
  const Two32: int := 0x1_0000_0000

  predicate IsUint32(x: int) {
    0 <= x < Two32
  }

  predicate Uint32s(s: seq<int>) {
    forall k :: 0 <= k < |s| ==> IsUint32(s[k])
  }

  /** Storing a number in a `Uint32Array` cell: the fraction is dropped
      toward zero and the integer wraps modulo 2^32. Below 2^32 a
      non-negative number is stored as its floor. */
  function ToUint32(x: real): (r: int)
    ensures IsUint32(r)
    ensures 0.0 <= x < Two32 as real ==> r == Floor(x)
  {
    Trunc(x) % Two32
  }

  /** The part of a loaded texture the rasterizer reads: its size and one
      packed colour per texel (`colorsUInt32`: alpha in the top byte, then
      blue, green, and red in the bottom byte). */
  datatype Texture = Texture(width: int, height: int, colorsUInt32: seq<int>)

  /** The texel column (or row) of a coordinate: `Math.trunc(u * n)`. */
  function Cell(u: real, n: int): int {
    Trunc(u * n as real)
  }

  /** The packed colour at column `col` of row `row`, or None where
      `col + width*row` lies outside the colour list (`undefined`). */
  function Texel(tex: Texture, col: int, row: int, width: int): (r: Option<int>)
    ensures var i := col + width * row;
      (r.Some? <==> 0 <= i < |tex.colorsUInt32|) && (r.Some? ==> r.value == tex.colorsUInt32[i])
  {
    var i := col + width * row;
    if 0 <= i < |tex.colorsUInt32| then Some(tex.colorsUInt32[i]) else None
  }

  /** `SampleColorUInt8`, called with the texture's own width and height. */
  function SampleColorUInt8(u: real, v: real, tex: Texture, width: int, height: int): (r: Option<int>)
    ensures r.Some? ==> r.value in tex.colorsUInt32
  {
    Texel(tex, Cell(u, width), Cell(v, height), width)
  }

  /** A scaled coordinate in (-1, n): truncation keeps it in [0, n), so a
      coordinate a rounding error below zero still samples the first texel. */
  predicate Within(p: real, n: int) {
    -1.0 < p < n as real
  }

  lemma AxisInRange(p: real, n: int)
    requires n > 0 && Within(p, n)
    ensures 0 <= Trunc(p) < n
  {
    if p < 0.0 {
      assert Trunc(p) as real > -1.0;
    }
  }

  /** For u*width in (-1, width) and v*height in (-1, height) the sample is
      an existing texel. */
  lemma SampleInTexture(u: real, v: real, tex: Texture)
    requires tex.width > 0 && tex.height > 0 && |tex.colorsUInt32| == tex.width * tex.height
    requires Within(u * tex.width as real, tex.width) && Within(v * tex.height as real, tex.height)
    ensures SampleColorUInt8(u, v, tex, tex.width, tex.height).Some?
  {
    AxisInRange(u * tex.width as real, tex.width);
    AxisInRange(v * tex.height as real, tex.height);
    CellInTexture(tex, Cell(u, tex.width), Cell(v, tex.height));
  }

  lemma CellInTexture(tex: Texture, col: int, row: int)
    requires |tex.colorsUInt32| == tex.width * tex.height
    requires 0 <= col < tex.width && 0 <= row < tex.height
    ensures Texel(tex, col, row, tex.width).Some?
  {
    assert tex.width * row <= tex.width * (tex.height - 1);
  }

  /** The byte of a packed colour that starts at bit position `scale`
      (1, 2^8, 2^16 or 2^24): `(color & (0xff * scale)) / scale`. */
  function Channel(color: int, scale: int): int
    requires scale > 0
  {
    color / scale % 256
  }

  /** One line `(color & M) * luminance & M` of `DrawPixel`, M being the
      mask of the byte at `scale` and b the byte there: the masked value
      b * scale times the luminance, truncated to a 32-bit integer and
      masked again; the result is the new byte. */
  function ShadedChannel(b: int, scale: int, l: real): int
    requires scale > 0
  {
    Trunc(b as real * scale as real * l) / scale % 256
  }

  /** The colour `DrawPixel` stores: the alpha byte as it was and the three
      colour bytes scaled by the luminance. The four masked fields do not
      overlap, so their bitwise `|` is their sum. */
  function Shade(color: int, l: real): int {
    Channel(color, 0x100_0000) * 0x100_0000
      + ShadedChannel(Channel(color, 0x1_0000), 0x1_0000, l) * 0x1_0000
      + ShadedChannel(Channel(color, 0x100), 0x100, l) * 0x100
      + ShadedChannel(Channel(color, 1), 1, l)
  }

  /** A colour byte scaled by the luminance, rounded down. */
  function Dimmed(b: int, l: real): int {
    Floor(b as real * l)
  }

  /** For a luminance in [0, 1], `DrawPixel` keeps the alpha byte and
      replaces each colour byte b with floor(b * l); the result is again a
      32-bit colour. */
  lemma ShadeChannels(color: int, l: real)
    requires IsUint32(color) && 0.0 <= l <= 1.0
    ensures IsUint32(Shade(color, l))
    ensures Channel(Shade(color, l), 0x100_0000) == Channel(color, 0x100_0000)
    ensures Channel(Shade(color, l), 0x1_0000) == Dimmed(Channel(color, 0x1_0000), l)
    ensures Channel(Shade(color, l), 0x100) == Dimmed(Channel(color, 0x100), l)
    ensures Channel(Shade(color, l), 1) == Dimmed(Channel(color, 1), l)
  {
    var a := Channel(color, 0x100_0000);
    assert a < 256 by { assert color / 0x100_0000 < 256; }
    var b2, b1, b0 := Channel(color, 0x1_0000), Channel(color, 0x100), Channel(color, 1);
    var r2, r1, r0 := ShadedChannel(b2, 0x1_0000, l), ShadedChannel(b1, 0x100, l), ShadedChannel(b0, 1, l);
    ShadedByte(b2, 0x1_0000, l);
    ShadedByte(b1, 0x100, l);
    ShadedByte(b0, 1, l);
    var c := Shade(color, l);
    assert c == a * 0x100_0000 + r2 * 0x1_0000 + r1 * 0x100 + r0;
    Unpack(c, a, r2, r1, r0);
  }

  /** Each shaded byte is floor(b * l) for the byte b it replaces. */
  lemma ShadedByte(b: int, scale: int, l: real)
    requires 0 <= b < 256 && scale > 0 && 0.0 <= l <= 1.0
    ensures ShadedChannel(b, scale, l) == Dimmed(b, l)
    ensures 0 <= ShadedChannel(b, scale, l) < 256
  {
    var y := b as real * l;
    ScaledBelow(b as real, l, y);
    var x := y * scale as real;
    Reassociate(b as real, scale as real, l, y);
    ShadedChannelOf(b, scale, l, x);
    FloorScaledDiv(y, scale);
    var n := Dimmed(b, l);
    assert Trunc(x) / scale == n;
    IntBelowFloor(0, y);
    FloorAtMost(y, b);
    ModSmall(n);
  }

  lemma ModSmall(n: int)
    requires 0 <= n < 256
    ensures n % 256 == n
  {
  }

  lemma ShadedChannelOf(b: int, scale: int, l: real, x: real)
    requires scale > 0 && x == b as real * scale as real * l
    ensures ShadedChannel(b, scale, l) == Trunc(x) / scale % 256
  {
  }

  lemma Reassociate(b: real, s: real, l: real, y: real)
    requires y == b * l
    ensures b * s * l == y * s
  {
  }

  lemma FloorAtMost(y: real, b: int)
    requires y <= b as real
    ensures Floor(y) <= b
  {
  }

  lemma ScaledBelow(b: real, l: real, y: real)
    requires 0.0 <= b && 0.0 <= l <= 1.0 && y == b * l
    ensures 0.0 <= y <= b
  {
    assert b * l <= b * 1.0;
  }

  /** Dividing floor(y * s) by s (rounding down) gives floor(y). */
  lemma FloorScaledDiv(y: real, s: int)
    requires y >= 0.0 && s > 0
    ensures Trunc(y * s as real) / s == Floor(y)
  {
    var p := y * s as real;
    RealMulLe(0.0, y, s as real);
    assert Trunc(p) == Floor(p);
    ScaledFloorAbove(y, s, p);
    ScaledFloorBelow(y, s, p);
    DivBetween(Floor(p), s, Floor(y));
  }

  lemma ScaledFloorAbove(y: real, s: int, p: real)
    requires s > 0 && p == y * s as real
    ensures Floor(y) * s <= Floor(p)
  {
    var q := Floor(y);
    CastMul(q, s);
    RealMulLe(q as real, y, s as real);
    IntBelowFloor(q * s, p);
  }

  lemma ScaledFloorBelow(y: real, s: int, p: real)
    requires s > 0 && p == y * s as real
    ensures Floor(p) < Floor(y) * s + s
  {
    var q1 := Floor(y) + 1;
    var m := q1 * s;
    CastMul(q1, s);
    RealMulLt(y, q1 as real, s as real);
    FloorBelowInt(p, m);
    MulSucc(Floor(y), s);
  }

  lemma IntBelowFloor(m: int, p: real)
    requires m as real <= p
    ensures m <= Floor(p)
  {
  }

  lemma FloorBelowInt(p: real, m: int)
    requires p < m as real
    ensures Floor(p) < m
  {
  }

  lemma MulSucc(q: int, s: int)
    ensures (q + 1) * s == q * s + s
  {
  }

  lemma CastMul(a: int, b: int)
    ensures (a * b) as real == a as real * b as real
  {
  }

  lemma MulLe(a: int, b: int, s: int)
    requires a <= b && s > 0
    ensures a * s <= b * s
  {
  }

  lemma RealMulLe(a: real, b: real, c: real)
    requires a <= b && c > 0.0
    ensures a * c <= b * c
  {
  }

  lemma RealMulLt(a: real, b: real, c: real)
    requires a < b && c > 0.0
    ensures a * c < b * c
  {
  }

  /** The quotient of n by s is the q with q*s <= n < q*s + s. */
  lemma DivBetween(n: int, s: int, q: int)
    requires s > 0 && q * s <= n < q * s + s
    ensures n / s == q
  {
    var d := n / s;
    assert d * s <= n < d * s + s;
    if d < q {
      MulLe(d + 1, q, s);
      assert false;
    }
    if q < d {
      MulLe(q + 1, d, s);
      assert false;
    }
  }

  /** The four bytes of a packed colour read back from its sum. */
  lemma Unpack(c: int, a: int, r2: int, r1: int, r0: int)
    requires 0 <= a < 256 && 0 <= r2 < 256 && 0 <= r1 < 256 && 0 <= r0 < 256
    requires c == a * 0x100_0000 + r2 * 0x1_0000 + r1 * 0x100 + r0
    ensures IsUint32(c)
      && Channel(c, 0x100_0000) == a && Channel(c, 0x1_0000) == r2
      && Channel(c, 0x100) == r1 && Channel(c, 1) == r0
  {
    assert c / 0x100_0000 == a;
    assert c / 0x1_0000 == a * 0x100 + r2;
    assert c / 0x100 == a * 0x1_0000 + r2 * 0x100 + r1;
  }

  /** An `undefined` sample reads as 0 under the bitwise operators. */
  function ColorOr0(c: Option<int>): int {
    if c.Some? then c.value else 0
  }

  /** The depth buffer and the packed image, as values. */
  datatype Frame = Frame(depth: seq<int>, image: seq<int>)

  /** The buffer cell of column `col` in row `row`: `x + width * y` in
      `DrawPixel`, `i * width + j` in `rasterize`. */
  function Index(col: int, row: int, width: int): int {
    col + width * row
  }

  /** The effect of one visited pixel: when `w * HalfMax32UInt` exceeds the
      stored depth, the shaded texel under (u/w, v/w) is written to the
      image and the depth becomes `w * HalfMax32UInt` as a `Uint32Array`
      stores it. An index outside the buffer reads `undefined`, which no
      number exceeds. */
  function Plotted(fr: Frame, f: Frag, tex: Texture, l: real, width: int): (r: Frame)
    requires Uint32s(fr.depth)
  {
    var k := Index(f.col, f.row, width);
    if 0 <= k < |fr.depth| && f.w * HalfMax32UInt as real > fr.depth[k] as real then
      var color := Shade(ColorOr0(SampleColorUInt8(f.u / f.w, f.v / f.w, tex, tex.width, tex.height)), l);
      Frame(fr.depth[k := ToUint32(f.w * HalfMax32UInt as real)],
            if k < |fr.image| then fr.image[k := color] else fr.image)
    else fr
  }

  /** The pixels visited in order; the buffers keep their sizes and the
      depths stay 32-bit. */
  function ApplyAll(fr: Frame, frags: seq<Frag>, tex: Texture, l: real, width: int): (r: Frame)
    requires Uint32s(fr.depth)
    ensures Uint32s(r.depth)
    ensures |r.depth| == |fr.depth| && |r.image| == |fr.image|
    decreases |frags|
  {
    if |frags| == 0 then fr
    else Plotted(ApplyAll(fr, frags[..|frags| - 1], tex, l, width), frags[|frags| - 1], tex, l, width)
  }

  lemma {:induction false} ApplyAllAppend(fr: Frame, xs: seq<Frag>, ys: seq<Frag>, tex: Texture, l: real, width: int)
    requires Uint32s(fr.depth)
    ensures ApplyAll(fr, xs + ys, tex, l, width) == ApplyAll(ApplyAll(fr, xs, tex, l, width), ys, tex, l, width)
    decreases |ys|
  {
    if |ys| == 0 {
      assert xs + ys == xs;
    } else {
      var n := |ys| - 1;
      assert (xs + ys)[..|xs + ys| - 1] == xs + ys[..n];
      assert (xs + ys)[|xs + ys| - 1] == ys[n];
      ApplyAllAppend(fr, xs, ys[..n], tex, l, width);
    }
  }

  lemma ApplyAllPrefixStep(fr: Frame, frags: seq<Frag>, k: nat, tex: Texture, l: real, width: int)
    requires Uint32s(fr.depth) && k < |frags|
    ensures ApplyAll(fr, frags[..k + 1], tex, l, width)
         == Plotted(ApplyAll(fr, frags[..k], tex, l, width), frags[k], tex, l, width)
  {
    assert frags[..k + 1][..k] == frags[..k];
  }

  /** A visited pixel whose `w * HalfMax32UInt` stays below 2^32 is stored
      without wrapping. */
  predicate NoWrap(frags: seq<Frag>) {
    forall f :: f in frags ==> f.w * HalfMax32UInt as real < Two32 as real
  }

  /** Depths never decrease while no stored value wraps past 2^32. */
  lemma {:induction false} ApplyAllDeepens(fr: Frame, frags: seq<Frag>, tex: Texture, l: real, width: int, k: int)
    requires Uint32s(fr.depth) && 0 <= k < |fr.depth| && NoWrap(frags)
    ensures ApplyAll(fr, frags, tex, l, width).depth[k] >= fr.depth[k]
    decreases |frags|
  {
    if |frags| > 0 {
      var n := |frags| - 1;
      assert NoWrap(frags[..n]) by {
        forall f | f in frags[..n] ensures f in frags { }
      }
      ApplyAllDeepens(fr, frags[..n], tex, l, width, k);
      assert frags[n] in frags;
      var before := ApplyAll(fr, frags[..n], tex, l, width);
      var f := frags[n];
      var x := f.w * HalfMax32UInt as real;
      if Index(f.col, f.row, width) == k && x > before.depth[k] as real {
        assert ApplyAll(fr, frags, tex, l, width).depth[k] == Floor(x);
      }
    }
  }

  /** Under the same bound, each cell ends at least as deep as every
      visited pixel that addresses it: the depth buffer keeps the nearest. */
  lemma {:induction false} ApplyAllKeepsNearest(fr: Frame, frags: seq<Frag>, tex: Texture, l: real, width: int)
    requires Uint32s(fr.depth) && NoWrap(frags)
    ensures var r := ApplyAll(fr, frags, tex, l, width);
      forall f :: f in frags && 0 <= Index(f.col, f.row, width) < |fr.depth| ==>
        r.depth[Index(f.col, f.row, width)] >= Floor(f.w * HalfMax32UInt as real)
    decreases |frags|
  {
    if |frags| > 0 {
      var n := |frags| - 1;
      assert NoWrap(frags[..n]) by {
        forall f | f in frags[..n] ensures f in frags { }
      }
      ApplyAllKeepsNearest(fr, frags[..n], tex, l, width);
      var before := ApplyAll(fr, frags[..n], tex, l, width);
      var r := ApplyAll(fr, frags, tex, l, width);
      assert r == Plotted(before, frags[n], tex, l, width);
      forall f | f in frags && 0 <= Index(f.col, f.row, width) < |fr.depth|
        ensures r.depth[Index(f.col, f.row, width)] >= Floor(f.w * HalfMax32UInt as real)
      {
        var k := Index(f.col, f.row, width);
        var x := frags[n].w * HalfMax32UInt as real;
        if f == frags[n] {
          assert x < Two32 as real;
        } else {
          assert f in frags[..n];
          if Index(frags[n].col, frags[n].row, width) == k && x > before.depth[k] as real {
            assert x < Two32 as real;
            assert r.depth[k] == Floor(x);
          }
        }
      }
    }
  }

  /** The two edges one `rasterize` call walks: their x at the start row,
      their texture coordinates there (u, v, w in x, y, z) and the per-row
      steps of both. */
  datatype Edges = Edges(xLeft: real, xRight: real, uvLeft: Vec3D, uvRight: Vec3D,
                         xStepLeft: real, xStepRight: real, uvStepLeft: Vec3D, uvStepRight: Vec3D)

  /** The guard of `rasterize`: after one row, the left edge would lie
      right of the right edge. */
  predicate Crossed(e: Edges) {
    e.xLeft + e.xStepLeft > e.xRight + e.xStepRight
  }

  /** The recursive call's arguments: left and right exchanged. */
  function Swapped(e: Edges): (r: Edges)
    ensures Crossed(e) ==> !Crossed(r)
  {
    Edges(e.xRight, e.xLeft, e.uvRight, e.uvLeft, e.xStepRight, e.xStepLeft, e.uvStepRight, e.uvStepLeft)
  }

  /** Exchanging twice gives the edges back. */
  lemma SwappedTwice(e: Edges)
    ensures Swapped(Swapped(e)) == e
  {
  }

  /** One row of a `rasterize` call: the columns [startCol, endCol) and the
      texture coordinates at both ends. */
  datatype Row = Row(row: int, startCol: int, endCol: int, texStart: Vec3D, texEnd: Vec3D)

  /** Row i, `i - startRow` steps down both edges. */
  function RasterRow(e: Edges, startRow: int, i: int): Row {
    var step := (i - startRow) as real;
    Row(i, Round(e.xLeft + step * e.xStepLeft), Round(e.xRight + step * e.xStepRight),
        Add(e.uvLeft, MultiplyConst(e.uvStepLeft, step)), Add(e.uvRight, MultiplyConst(e.uvStepRight, step)))
  }

  /** The pixel in column j with the texture coordinates `lerp(texStart,
      texEnd, t)`. */
  function LerpFrag(r: Row, j: int, t: real): Frag {
    var uvw := Lerp(r.texStart, r.texEnd, t);
    Frag(j, r.row, uvw.x, uvw.y, uvw.z)
  }

  /** The pixels of a row, left to right; none when endCol <= startCol. */
  function RowFrags(r: Row): (fs: seq<Frag>)
    ensures |fs| == if r.startCol <= r.endCol then r.endCol - r.startCol else 0
  {
    if r.startCol < r.endCol then
      seq(r.endCol - r.startCol, k requires 0 <= k < r.endCol - r.startCol =>
        LerpFrag(r, r.startCol + k, ColumnParam(k, r.endCol - r.startCol)))
    else []
  }

  /** The pixel in column j of a row lies in [startCol, endCol) and carries
      the interpolation with t = (j - startCol) / (endCol - startCol). */
  lemma RowFragLerp(r: Row, k: nat)
    requires k < r.endCol - r.startCol
    ensures var f := RowFrags(r)[k]; var t := (f.col - r.startCol) as real / (r.endCol - r.startCol) as real;
      && r.startCol <= f.col < r.endCol && f.row == r.row && 0.0 <= t < 1.0
      && f.u == r.texStart.x * (1.0 - t) + r.texEnd.x * t
      && f.v == r.texStart.y * (1.0 - t) + r.texEnd.y * t
      && f.w == r.texStart.z * (1.0 - t) + r.texEnd.z * t
  {
    ColumnParamRatio(k, r.endCol - r.startCol);
  }

  /** Rows startRow..hi of edges that are already in order. */
  function Rows(e: Edges, startRow: int, hi: int): seq<Frag>
    decreases hi - startRow
  {
    if hi < startRow then [] else Rows(e, startRow, hi - 1) + RowFrags(RasterRow(e, startRow, hi))
  }

  /** Every pixel `rasterize` visits, in order: rows startRow..endRow of
      the edges, exchanged first when they cross. */
  function RasterFrags(e: Edges, startRow: int, endRow: int): seq<Frag> {
    Rows(if Crossed(e) then Swapped(e) else e, startRow, endRow)
  }

  lemma RowsStep(fr: Frame, e: Edges, startRow: int, i: int, tex: Texture, l: real, width: int)
    requires Uint32s(fr.depth) && startRow <= i
    ensures ApplyAll(fr, Rows(e, startRow, i), tex, l, width)
         == ApplyAll(ApplyAll(fr, Rows(e, startRow, i - 1), tex, l, width), RowFrags(RasterRow(e, startRow, i)), tex, l, width)
  {
    ApplyAllAppend(fr, Rows(e, startRow, i - 1), RowFrags(RasterRow(e, startRow, i)), tex, l, width);
  }

  /** Every pixel of a `rasterize` call lies in one of its rows. */
  lemma {:induction false} RowsInRange(e: Edges, startRow: int, hi: int)
    ensures forall f :: f in Rows(e, startRow, hi) ==> startRow <= f.row <= hi
    decreases hi - startRow
  {
    if startRow <= hi {
      RowsInRange(e, startRow, hi - 1);
      var r := RasterRow(e, startRow, hi);
      forall f | f in RowFrags(r) ensures f.row == hi {
        var k :| 0 <= k < |RowFrags(r)| && RowFrags(r)[k] == f;
      }
    }
  }

  /** A corner after rounding: `make3D(Math.round(x), Math.round(y))` and
      its texture coordinate. */
  datatype Point = Point(x: int, y: int, t: Vec2D)

  function PointOf(p: Vec3D, t: Vec2D): Point {
    Point(Round(p.x), Round(p.y), t)
  }

  /** The corners of the screen-space triangle sorted by y, each texture
      coordinate travelling with its point. */
  function SortedPoints(s: Triangles.Tri): (Point, Point, Point) {
    SortByY(PointOf(s.p0, s.t0), PointOf(s.p1, s.t1), PointOf(s.p2, s.t2), (p: Point) => p.y)
  }

  /** The increments per row along the edge from p1 to p2. */
  datatype Step = Step(xStep: real, uvStep: Vec3D)

  /** `getStep`: x and the texture coordinates divided by the edge's height. */
  function GetStep(p1: Point, p2: Point): Step
    requires p2.y != p1.y
  {
    var y1y2 := (p2.y - p1.y) as real;
    Step((p2.x - p1.x) as real / y1y2, MultiplyConst(Make3D(p2.t.u - p1.t.u, p2.t.v - p1.t.v, p2.t.w - p1.t.w), 1.0 / y1y2))
  }

  /** The edge reaches p2 from p1 after `p2.y - p1.y` steps, in x and in
      every texture coordinate. */
  lemma GetStepReaches(p1: Point, p2: Point)
    requires p2.y != p1.y
    ensures var s, dy := GetStep(p1, p2), (p2.y - p1.y) as real;
      && p1.x as real + dy * s.xStep == p2.x as real
      && p1.t.u + dy * s.uvStep.x == p2.t.u
      && p1.t.v + dy * s.uvStep.y == p2.t.v
      && p1.t.w + dy * s.uvStep.z == p2.t.w
  {
    var dy := (p2.y - p1.y) as real;
    QuotientTimes((p2.x - p1.x) as real, dy);
    ScaledQuotient(p2.t.u - p1.t.u, dy);
    ScaledQuotient(p2.t.v - p1.t.v, dy);
    ScaledQuotient(p2.t.w - p1.t.w, dy);
  }

  lemma QuotientTimes(a: real, d: real)
    requires d != 0.0
    ensures d * (a / d) == a
  {
  }

  lemma ScaledQuotient(a: real, d: real)
    requires d != 0.0
    ensures d * (a * (1.0 / d)) == a
  {
  }

  /** The edges of the top half: both start at p1; the left one runs to p2
      and the right one is the long edge to p3, whose step `right` is
      computed once for both halves. */
  function TopEdges(p1: Point, p2: Point, right: Step): Edges
    requires p2.y != p1.y
  {
    var left := GetStep(p1, p2);
    Edges(p1.x as real, p1.x as real, Make3DFrom2D(p1.t), Make3DFrom2D(p1.t),
          left.xStep, right.xStep, left.uvStep, right.uvStep)
  }

  /** The edges of the bottom half: the left one runs from p2 to p3; the
      long edge resumes where the top half's reaches row p2.y. */
  function BottomEdges(p1: Point, p2: Point, p3: Point, right: Step): Edges
    requires p3.y != p2.y
  {
    var y1y2 := (p2.y - p1.y) as real;
    var rightX := p1.x as real + right.xStep * y1y2;
    var rightUV := Add(Make3DFrom2D(p1.t), MultiplyConst(right.uvStep, y1y2));
    var left := GetStep(p2, p3);
    Edges(p2.x as real, rightX, Make3DFrom2D(p2.t), rightUV, left.xStep, right.xStep, left.uvStep, right.uvStep)
  }

  /** The long edge is one line across both halves: k rows into the bottom
      half it is where the top half's long edge would be k rows after p2.y,
      in x and in the texture coordinates. */
  lemma LongEdgeContinues(p1: Point, p2: Point, p3: Point, right: Step, i: int)
    requires p3.y != p2.y
    ensures var b := BottomEdges(p1, p2, p3, right);
      var k, k1 := (i - p2.y) as real, (i - p1.y) as real;
      && b.xRight + k * b.xStepRight == p1.x as real + k1 * right.xStep
      && b.uvRight.x + k * b.uvStepRight.x == p1.t.u + k1 * right.uvStep.x
      && b.uvRight.y + k * b.uvStepRight.y == p1.t.v + k1 * right.uvStep.y
      && b.uvRight.z + k * b.uvStepRight.z == p1.t.w + k1 * right.uvStep.z
  {
    var d, k, k1 := (p2.y - p1.y) as real, (i - p2.y) as real, (i - p1.y) as real;
    Resume(p1.x as real, right.xStep, d, k, k1);
    ResumeTex(p1.t, right.uvStep, d, k, k1);
  }

  /** With the long edge's step from `getStep(p1, p3)`, the bottom half's
      right edge reaches p3 on row p3.y, in x and in every texture
      coordinate. */
  lemma LongEdgeReachesEnd(p1: Point, p2: Point, p3: Point)
    requires p3.y != p2.y && p3.y != p1.y
    ensures var b := BottomEdges(p1, p2, p3, GetStep(p1, p3));
      var k := (p3.y - p2.y) as real;
      && b.xRight + k * b.xStepRight == p3.x as real
      && b.uvRight.x + k * b.uvStepRight.x == p3.t.u
      && b.uvRight.y + k * b.uvStepRight.y == p3.t.v
      && b.uvRight.z + k * b.uvStepRight.z == p3.t.w
  {
    var right := GetStep(p1, p3);
    LongEdgeContinues(p1, p2, p3, right, p3.y);
    GetStepReaches(p1, p3);
  }

  lemma ResumeTex(t: Vec2D, step: Vec3D, d: real, k: real, k1: real)
    requires k1 == d + k
    ensures var uv := Add(Make3DFrom2D(t), MultiplyConst(step, d));
      && uv.x + k * step.x == t.u + k1 * step.x
      && uv.y + k * step.y == t.v + k1 * step.y
      && uv.z + k * step.z == t.w + k1 * step.z
  {
    Resume(t.u, step.x, d, k, k1);
    Resume(t.v, step.y, d, k, k1);
    Resume(t.w, step.z, d, k, k1);
  }

  lemma Resume(a: real, s: real, d: real, k: real, k1: real)
    requires k1 == d + k
    ensures (a + s * d) + k * s == a + k1 * s
  {
  }

  /** The pixels of the top half, drawn only when y2 != y1. */
  function TopFrags(p1: Point, p2: Point, p3: Point): seq<Frag>
    requires p3.y != p1.y
  {
    if p2.y != p1.y then RasterFrags(TopEdges(p1, p2, GetStep(p1, p3)), p1.y, p2.y) else []
  }

  /** The pixels of the bottom half, drawn only when y3 != y2. */
  function BottomFrags(p1: Point, p2: Point, p3: Point): seq<Frag>
    requires p3.y != p1.y
  {
    if p3.y != p2.y then RasterFrags(BottomEdges(p1, p2, p3, GetStep(p1, p3)), p2.y, p3.y) else []
  }

  /** Every pixel `TexturedTriangle` visits, in order: nothing when the
      sorted corners share one row, else the top half and the bottom half. */
  function TriangleFrags(tri: Triangles.Tri, width: real, height: real): seq<Frag> {
    var (p1, p2, p3) := SortedPoints(Canvases.ScreenSpace(tri, width, height));
    if p3.y == p1.y then [] else TopFrags(p1, p2, p3) + BottomFrags(p1, p2, p3)
  }

  /** Every visited pixel lies between the top and the bottom row. */
  lemma TriangleFragsRows(tri: Triangles.Tri, width: real, height: real)
    ensures var (p1, p2, p3) := SortedPoints(Canvases.ScreenSpace(tri, width, height));
      forall f :: f in TriangleFrags(tri, width, height) ==> p1.y <= f.row <= p3.y
  {
    var (p1, p2, p3) := SortedPoints(Canvases.ScreenSpace(tri, width, height));
    if p3.y != p1.y {
      if p2.y != p1.y {
        var e := TopEdges(p1, p2, GetStep(p1, p3));
        RowsInRange(if Crossed(e) then Swapped(e) else e, p1.y, p2.y);
      }
      if p3.y != p2.y {
        var e := BottomEdges(p1, p2, p3, GetStep(p1, p3));
        RowsInRange(if Crossed(e) then Swapped(e) else e, p2.y, p3.y);
      }
    }
  }

  class ImageCanvas {
    const width: int
    const height: int
    /** `depthBuffer` */
    var depthBuffer: array<int>
    /** `uint32View`: the packed pixels of `imageData` */
    var image: array<int>
    /** `emptyImageData`: the background captured at setup */
    var emptyImage: array<int>

    ghost predicate Valid()
      reads this, depthBuffer
    {
      && 0 <= width && 0 <= height
      && depthBuffer.Length == width * height && image.Length == width * height
      && emptyImage.Length == width * height
      && image != emptyImage && depthBuffer != image && depthBuffer != emptyImage
      && Uint32s(depthBuffer[..])
    }

    function Snapshot(): Frame
      reads this, depthBuffer, image
    {
      Frame(depthBuffer[..], image[..])
    }

    /** `SetupCanvas` with the measured size: the canvas is filled with the
        background, both image buffers start as that background and the
        depth buffer as zeros. */
    constructor (width: nat, height: nat, background: int)
      requires IsUint32(background)
      ensures Valid() && this.width == width && this.height == height
      ensures forall k :: 0 <= k < depthBuffer.Length ==> depthBuffer[k] == 0
      ensures forall k :: 0 <= k < image.Length ==> image[k] == background && emptyImage[k] == background
    {
      this.width := width;
      this.height := height;
      depthBuffer := new int[width * height](_ => 0);
      image := new int[width * height](_ => background);
      emptyImage := new int[width * height](_ => background);
    }

    /** `clear`: the image gets the saved background back and every depth
        entry is reset to zero. */
    method Clear()
      requires Valid()
      modifies depthBuffer, image
      ensures Valid()
      ensures image[..] == emptyImage[..]
      ensures forall k :: 0 <= k < depthBuffer.Length ==> depthBuffer[k] == 0
    {
      forall k | 0 <= k < image.Length {
        image[k] := emptyImage[k];
      }
      forall k | 0 <= k < depthBuffer.Length {
        depthBuffer[k] := 0;
      }
      assert image[..] == emptyImage[..];
    }

    /** `DrawPixel`: the shaded colour is written to cell `x + width*y`
        (a write outside the view is dropped). */
    method DrawPixel(x: int, y: int, color: int, luminance: real)
      modifies image
      ensures var k := Index(x, y, width);
        image[..] == if 0 <= k < image.Length then old(image[..])[k := Shade(color, luminance)] else old(image[..])
    {
      var k := Index(x, y, width);
      if 0 <= k < image.Length {
        image[k] := Shade(color, luminance);
      }
    }

    /** The depth test and write for one pixel. */
    method Plot(f: Frag, tex: Texture, luminance: real)
      requires Valid()
      modifies depthBuffer, image
      ensures Valid()
      ensures Snapshot() == Plotted(old(Snapshot()), f, tex, luminance, width)
    {
      var k := Index(f.col, f.row, width);
      if 0 <= k < depthBuffer.Length && f.w * HalfMax32UInt as real > depthBuffer[k] as real {
        var color := SampleColorUInt8(f.u / f.w, f.v / f.w, tex, tex.width, tex.height);
        DrawPixel(f.col, f.row, ColorOr0(color), luminance);
        depthBuffer[k] := ToUint32(f.w * HalfMax32UInt as real);
      }
    }

    /** The column loop of one row: t starts at 0 and grows by
        `1 / (endCol - startCol)` per column. */
    method DrawRow(r: Row, tex: Texture, luminance: real)
      requires Valid()
      modifies depthBuffer, image
      ensures Valid()
      ensures Snapshot() == ApplyAll(old(Snapshot()), RowFrags(r), tex, luminance, width)
    {
      ghost var f0 := Snapshot();
      if r.endCol <= r.startCol {
        return;
      }
      var tStep := 1.0 / (r.endCol - r.startCol) as real;
      var t := 0.0;
      var j := r.startCol;
      while j < r.endCol
        invariant r.startCol <= j <= r.endCol
        invariant t == ColumnParam(j - r.startCol, r.endCol - r.startCol)
        invariant Valid()
        invariant Snapshot() == ApplyAll(f0, RowFrags(r)[..j - r.startCol], tex, luminance, width)
      {
        var k: nat := j - r.startCol;
        var f := LerpFrag(r, j, t);
        assert f == RowFrags(r)[k];
        Plot(f, tex, luminance);
        ApplyAllPrefixStep(f0, RowFrags(r), k, tex, luminance, width);
        ColumnParamStep(k, r.endCol - r.startCol);
        t := t + tStep;
        j := j + 1;
      }
      assert RowFrags(r)[..j - r.startCol] == RowFrags(r);
    }

    /** `rasterize`: crossed edges are exchanged by one recursive call,
        whose own guard is then false; rows startRow..endRow are drawn. */
    method Rasterize(startRow: int, endRow: int, e: Edges, tex: Texture, luminance: real)
      requires Valid()
      modifies depthBuffer, image
      ensures Valid()
      ensures Snapshot() == ApplyAll(old(Snapshot()), RasterFrags(e, startRow, endRow), tex, luminance, width)
      decreases if Crossed(e) then 1 else 0
    {
      if Crossed(e) {
        Rasterize(startRow, endRow, Swapped(e), tex, luminance);
        return;
      }
      ghost var f0 := Snapshot();
      if endRow < startRow {
        return;
      }
      for i := startRow to endRow + 1
        invariant Valid()
        invariant Snapshot() == ApplyAll(f0, Rows(e, startRow, i - 1), tex, luminance, width)
      {
        RowsStep(f0, e, startRow, i, tex, luminance, width);
        DrawRow(RasterRow(e, startRow, i), tex, luminance);
      }
    }

    /** `TexturedTriangle`: the corners move to screen space and are
        rounded and sorted by y; a triangle of zero rows draws nothing;
        otherwise the top and bottom halves are rasterized with the
        triangle's luminance. */
    method TexturedTriangle(tri: Triangles.Tri, tex: Texture)
      requires Valid()
      modifies depthBuffer, image
      ensures Valid()
      ensures Snapshot() == ApplyAll(old(Snapshot()), TriangleFrags(tri, width as real, height as real), tex, tri.l, width)
    {
      var (p1, p2, p3) := SortedPoints(Canvases.ScreenSpace(tri, width as real, height as real));
      if p3.y == p1.y {
        return;
      }
      ghost var f0 := Snapshot();
      var right := GetStep(p1, p3);
      if p2.y != p1.y {
        Rasterize(p1.y, p2.y, TopEdges(p1, p2, right), tex, tri.l);
      }
      if p3.y != p2.y {
        Rasterize(p2.y, p3.y, BottomEdges(p1, p2, p3, right), tex, tri.l);
      }
      ApplyAllAppend(f0, TopFrags(p1, p2, p3), BottomFrags(p1, p2, p3), tex, tri.l, width);
    }
  }

  /** A triangle whose corners round to one row draws nothing. */
  lemma FlatTriangleDrawsNothing(tri: Triangles.Tri, width: real, height: real)
    requires var s := Canvases.ScreenSpace(tri, width, height); Round(s.p0.y) == Round(s.p1.y) == Round(s.p2.y)
    ensures TriangleFrags(tri, width, height) == []
  {
  }
}
