/** Triangles and their clipping against a plane (src/tri.ts, and the
    copying variant of `ClipAgainstPlane` in docs/index.js).

    A `Tri` is a value: three vertices, three texture coordinates and a
    light level `l`. The source's triangles are objects whose vertex and
    texture objects may be shared between triangles; the model copies
    values and so does not reproduce that sharing. */
module Triangles {
  import opened Maths
  import opened Vectors
  import opened Matrices

  datatype Tri = Tri(p0: Vec3D, p1: Vec3D, p2: Vec3D, t0: Vec2D, t1: Vec2D, t2: Vec2D, l: real)
  {
    /** `p[i]`. */
    function P(i: nat): Vec3D
      requires i < 3
    {
      if i == 0 then p0 else if i == 1 then p1 else p2
    }

    /** `t[i]`. */
    function T(i: nat): Vec2D
      requires i < 3
    {
      if i == 0 then t0 else if i == 1 then t1 else t2
    }
  }

  /** `new Tri()` with every argument defaulted: three copies of the origin
      point, three texture coordinates (0, 0, 1) and full light. */
  function DefaultTri(): (r: Tri)
    ensures forall i :: 0 <= i < 3 ==> r.P(i) == Make3D(0.0, 0.0, 0.0) && r.T(i) == Make2D(0.0, 0.0)
    ensures r.l == 1.0
  {
    Tri(Make3D(0.0, 0.0, 0.0), Make3D(0.0, 0.0, 0.0), Make3D(0.0, 0.0, 0.0),
        Make2D(0.0, 0.0), Make2D(0.0, 0.0), Make2D(0.0, 0.0), 1.0)
  }

  /** Two triangles carry the same texture coordinates and light level. */
  predicate SameTexAndLight(a: Tri, b: Tri) {
    a.t0 == b.t0 && a.t1 == b.t1 && a.t2 == b.t2 && a.l == b.l
  }

  // The affine helpers: each applies one vector operation to the three
  // vertices, in order, and passes t and l through.

  function AddVector(tri: Tri, vec: Vec3D): (r: Tri)
    ensures SameTexAndLight(r, tri)
    ensures forall i :: 0 <= i < 3 ==> r.P(i) == Add(tri.P(i), vec)
  {
    Tri(Add(tri.p0, vec), Add(tri.p1, vec), Add(tri.p2, vec), tri.t0, tri.t1, tri.t2, tri.l)
  }

  function AddConst(tri: Tri, c: real): (r: Tri)
    ensures SameTexAndLight(r, tri)
    ensures forall i :: 0 <= i < 3 ==> r.P(i) == Vectors.AddConst(tri.P(i), c)
  {
    Tri(Vectors.AddConst(tri.p0, c), Vectors.AddConst(tri.p1, c), Vectors.AddConst(tri.p2, c),
        tri.t0, tri.t1, tri.t2, tri.l)
  }

  function MultiplyVector(tri: Tri, vec: Vec3D): (r: Tri)
    ensures SameTexAndLight(r, tri)
    ensures forall i :: 0 <= i < 3 ==> r.P(i) == Multiply(tri.P(i), vec)
  {
    Tri(Multiply(tri.p0, vec), Multiply(tri.p1, vec), Multiply(tri.p2, vec), tri.t0, tri.t1, tri.t2, tri.l)
  }

  function MultiplyConst(tri: Tri, c: real): (r: Tri)
    ensures SameTexAndLight(r, tri)
    ensures forall i :: 0 <= i < 3 ==> r.P(i) == Vectors.MultiplyConst(tri.P(i), c)
  {
    Tri(Vectors.MultiplyConst(tri.p0, c), Vectors.MultiplyConst(tri.p1, c), Vectors.MultiplyConst(tri.p2, c),
        tri.t0, tri.t1, tri.t2, tri.l)
  }

  /** Scales vertex i by the i-th component of `k` (x, y, z). */
  function MultiplyVectorAsConst(tri: Tri, k: Vec3D): (r: Tri)
    ensures SameTexAndLight(r, tri)
    ensures r.p0 == Vectors.MultiplyConst(tri.p0, k.x)
    ensures r.p1 == Vectors.MultiplyConst(tri.p1, k.y)
    ensures r.p2 == Vectors.MultiplyConst(tri.p2, k.z)
  {
    Tri(Vectors.MultiplyConst(tri.p0, k.x), Vectors.MultiplyConst(tri.p1, k.y), Vectors.MultiplyConst(tri.p2, k.z),
        tri.t0, tri.t1, tri.t2, tri.l)
  }

  /** Scales texture coordinate i by the i-th component of `k`; the vertices
      and l pass through, and each new texture w is the default 1. */
  function MultiplyVectorAsCons2D(tri: Tri, k: Vec3D): (r: Tri)
    ensures r.p0 == tri.p0 && r.p1 == tri.p1 && r.p2 == tri.p2 && r.l == tri.l
    ensures r.t0 == MultiplyConst2D(tri.t0, k.x)
    ensures r.t1 == MultiplyConst2D(tri.t1, k.y)
    ensures r.t2 == MultiplyConst2D(tri.t2, k.z)
  {
    Tri(tri.p0, tri.p1, tri.p2,
        MultiplyConst2D(tri.t0, k.x), MultiplyConst2D(tri.t1, k.y), MultiplyConst2D(tri.t2, k.z), tri.l)
  }

  /** `Tri.MultiplyMatrix`: every vertex transformed by `mat`. */
  function MultiplyMatrix(tri: Tri, mat: Matrix4): (r: Tri)
    ensures SameTexAndLight(r, tri)
    ensures forall i :: 0 <= i < 3 ==> r.P(i) == Matrices.MultiplyVector(tri.P(i), mat)
  {
    Tri(Matrices.MultiplyVector(tri.p0, mat), Matrices.MultiplyVector(tri.p1, mat), Matrices.MultiplyVector(tri.p2, mat),
        tri.t0, tri.t1, tri.t2, tri.l)
  }

  /** Transforming a triangle by a and then by b is transforming it by a * b. */
  lemma MultiplyMatrixProduct(tri: Tri, a: Matrix4, b: Matrix4)
    ensures MultiplyMatrix(MultiplyMatrix(tri, a), b) == MultiplyMatrix(tri, Product(a, b))
  {
    MultiplyVectorProduct(tri.p0, a, b);
    MultiplyVectorProduct(tri.p1, a, b);
    MultiplyVectorProduct(tri.p2, a, b);
  }

  /** The two edges whose cross product `GetNormal` normalises. */
  function NormalDirection(tri: Tri): Vec3D {
    CrossProduct(Subtract(tri.p1, tri.p0), Subtract(tri.p2, tri.p1))
  }

  /** `GetNormal`: a unit vector orthogonal to both edges p1 - p0 and
      p2 - p1, pointing the way of their cross product (the orientation
      back-face culling tests). The source yields NaN for a degenerate
      triangle; the model requires the edges not to be parallel. */
  function GetNormal(tri: Tri, math: MathLib): (r: Vec3D)
    requires math.Valid() && Size2(NormalDirection(tri)) > 0.0
    ensures Size2(r) == 1.0
    ensures DotProduct(Subtract(tri.p1, tri.p0), r) == 0.0
    ensures DotProduct(Subtract(tri.p2, tri.p1), r) == 0.0
    ensures exists k :: k > 0.0 && SameXyz(r, Vectors.MultiplyConst(NormalDirection(tri), k))
  {
    var n := NormalDirection(tri);
    var r := Normalize(n, math);
    var k :| k > 0.0 && SameXyz(r, Vectors.MultiplyConst(n, k));
    ScaledDot(Subtract(tri.p1, tri.p0), n, r, k);
    ScaledDot(Subtract(tri.p2, tri.p1), n, r, k);
    r
  }

  // Clipping against a plane.

  /** Every vertex of the triangle is on the inside (signed distance >= 0). */
  predicate Inside(point: Vec3D, normal: Vec3D, tri: Tri) {
    Dist(point, normal, tri.p0) >= 0.0 && Dist(point, normal, tri.p1) >= 0.0 && Dist(point, normal, tri.p2) >= 0.0
  }

  predicate AllInside(point: Vec3D, normal: Vec3D, tris: seq<Tri>) {
    forall i :: 0 <= i < |tris| ==> Inside(point, normal, tris[i])
  }

  /** How many vertices are on the inside. */
  function InsideCount(point: Vec3D, normal: Vec3D, tri: Tri): (n: nat)
    ensures n <= 3
  {
    (if Dist(point, normal, tri.p0) >= 0.0 then 1 else 0) +
    (if Dist(point, normal, tri.p1) >= 0.0 then 1 else 0) +
    (if Dist(point, normal, tri.p2) >= 0.0 then 1 else 0)
  }

  /** The arrays `inside_points`, `inside_tex`, `outside_points` and
      `outside_tex`, each cut to its counter. */
  datatype Sides = Sides(inP: seq<Vec3D>, inT: seq<Vec2D>, outP: seq<Vec3D>, outT: seq<Vec2D>)

  /** One of the triangle's three vertices. */
  predicate IsVertex(tri: Tri, v: Vec3D) {
    v == tri.p0 || v == tri.p1 || v == tri.p2
  }

  /** The arrays are filled in pairs with vertices of `tri`: the inside ones
      with vertices whose signed distance is >= 0, the outside ones with the
      others. */
  predicate Classified(point: Vec3D, normal: Vec3D, tri: Tri, s: Sides) {
    && |s.inP| == |s.inT| && |s.outP| == |s.outT|
    && (forall i :: 0 <= i < |s.inP| ==> Dist(point, normal, s.inP[i]) >= 0.0 && IsVertex(tri, s.inP[i]))
    && (forall i :: 0 <= i < |s.outP| ==> Dist(point, normal, s.outP[i]) < 0.0 && IsVertex(tri, s.outP[i]))
  }

  /** One classification step: the vertex and its texture coordinate are
      appended to the inside arrays when its signed distance is >= 0, to the
      outside arrays otherwise. */
  function Sort(point: Vec3D, normal: Vec3D, tri: Tri, s: Sides, p: Vec3D, t: Vec2D): (r: Sides)
    requires Classified(point, normal, tri, s) && IsVertex(tri, p)
    ensures Classified(point, normal, tri, r)
    ensures |r.inP| == |s.inP| + (if Dist(point, normal, p) >= 0.0 then 1 else 0)
    ensures |r.inP| + |r.outP| == |s.inP| + |s.outP| + 1
  {
    if Dist(point, normal, p) >= 0.0 then s.(inP := s.inP + [p], inT := s.inT + [t])
    else s.(outP := s.outP + [p], outT := s.outT + [t])
  }

  /** The three classification steps, vertex 0 first. */
  function Classify(point: Vec3D, normal: Vec3D, tri: Tri): (s: Sides)
    ensures Classified(point, normal, tri, s)
    ensures |s.inP| == InsideCount(point, normal, tri)
    ensures |s.outP| == 3 - InsideCount(point, normal, tri)
  {
    var s0 := Sort(point, normal, tri, Sides([], [], [], []), tri.p0, tri.t0);
    var s1 := Sort(point, normal, tri, s0, tri.p1, tri.t1);
    Sort(point, normal, tri, s1, tri.p2, tri.t2)
  }

  /** The texture coordinate at parameter t from `inside` towards `outside`,
      written as the source writes it: t * (outside - inside) + inside, for
      u, v and w. */
  function TexAt(inside: Vec2D, outside: Vec2D, t: real): (r: Vec2D)
    ensures t == 0.0 ==> r == inside
    ensures t == 1.0 ==> r == outside
  {
    Vec2D(
      t * (outside.u - inside.u) + inside.u,
      t * (outside.v - inside.v) + inside.v,
      t * (outside.w - inside.w) + inside.w)
  }

  /** The docs variant interpolates with `lerp2D`; over the reals both
      formulas agree. */
  lemma TexAtIsLerp2D(inside: Vec2D, outside: Vec2D, t: real)
    ensures TexAt(inside, outside, t) == Lerp2D(inside, outside, t)
  {
  }

  /** `ClipAgainstPlane` (src/tri.ts): no triangle when every vertex is
      outside, the triangle itself when every vertex is inside, one smaller
      triangle when one vertex is inside and two when two are. */
  function ClipAgainstPlane(point: Vec3D, normal: Vec3D, tri: Tri): (r: seq<Tri>)
    ensures |r| == (if InsideCount(point, normal, tri) == 0 then 0
                    else if InsideCount(point, normal, tri) == 2 then 2 else 1)
  {
    var s := Classify(point, normal, tri);
    if |s.inP| == 0 then []
    else if |s.inP| == 3 then [tri]
    else if |s.inP| == 1 then
      IntersectParamInSegment(point, normal, s.inP[0], s.outP[0]);
      IntersectParamInSegment(point, normal, s.inP[0], s.outP[1]);
      var i1 := IntersectPlane(point, normal, s.inP[0], s.outP[0]);
      var i2 := IntersectPlane(point, normal, s.inP[0], s.outP[1]);
      [Tri(s.inP[0], i1.v, i2.v, s.inT[0], TexAt(s.inT[0], s.outT[0], i1.t), TexAt(s.inT[0], s.outT[1], i2.t), tri.l)]
    else
      IntersectParamInSegment(point, normal, s.inP[0], s.outP[0]);
      IntersectParamInSegment(point, normal, s.inP[1], s.outP[0]);
      var i1 := IntersectPlane(point, normal, s.inP[0], s.outP[0]);
      var i2 := IntersectPlane(point, normal, s.inP[1], s.outP[0]);
      var t1 := TexAt(s.inT[0], s.outT[0], i1.t);
      var t2 := TexAt(s.inT[1], s.outT[0], i2.t);
      [Tri(s.inP[0], s.inP[1], i1.v, s.inT[0], s.inT[1], t1, tri.l),
       Tri(s.inP[1], i1.v, i2.v, s.inT[1], t1, t2, tri.l)]
  }

  /** `Tri.ClipAgainstPlane` (docs/index.js): the same case analysis, with
      texture coordinates interpolated by `lerp2D` and shallow-copied with
      `Object.assign`; copies of values are the values themselves. */
  function ClipAgainstPlaneCopying(point: Vec3D, normal: Vec3D, tri: Tri): (r: seq<Tri>)
  {
    var s := Classify(point, normal, tri);
    if |s.inP| == 0 then []
    else if |s.inP| == 3 then [tri]
    else if |s.inP| == 1 then
      IntersectParamInSegment(point, normal, s.inP[0], s.outP[0]);
      IntersectParamInSegment(point, normal, s.inP[0], s.outP[1]);
      var i1 := IntersectPlane(point, normal, s.inP[0], s.outP[0]);
      var i2 := IntersectPlane(point, normal, s.inP[0], s.outP[1]);
      [Tri(s.inP[0], i1.v, i2.v, s.inT[0], Lerp2D(s.inT[0], s.outT[0], i1.t), Lerp2D(s.inT[0], s.outT[1], i2.t), tri.l)]
    else
      IntersectParamInSegment(point, normal, s.inP[0], s.outP[0]);
      IntersectParamInSegment(point, normal, s.inP[1], s.outP[0]);
      var i1 := IntersectPlane(point, normal, s.inP[0], s.outP[0]);
      var i2 := IntersectPlane(point, normal, s.inP[1], s.outP[0]);
      var t1 := Lerp2D(s.inT[0], s.outT[0], i1.t);
      var t2 := Lerp2D(s.inT[1], s.outT[0], i2.t);
      [Tri(s.inP[0], s.inP[1], i1.v, s.inT[0], s.inT[1], t1, tri.l),
       Tri(s.inP[1], i1.v, i2.v, s.inT[1], t1, t2, tri.l)]
  }

  /** Both versions of the clipper return the same triangles. */
  lemma ClipVariantsAgree(point: Vec3D, normal: Vec3D, tri: Tri)
    ensures ClipAgainstPlaneCopying(point, normal, tri) == ClipAgainstPlane(point, normal, tri)
  {
    var s := Classify(point, normal, tri);
    if |s.inP| == 1 || |s.inP| == 2 {
      var a := if |s.inP| == 1 then 0 else 1;
      IntersectParamInSegment(point, normal, s.inP[0], s.outP[0]);
      IntersectParamInSegment(point, normal, s.inP[0], s.outP[|s.outP| - 1]);
      IntersectParamInSegment(point, normal, s.inP[a], s.outP[0]);
      var i1 := IntersectPlane(point, normal, s.inP[0], s.outP[0]);
      var i2 := IntersectPlane(point, normal, s.inP[0], s.outP[|s.outP| - 1]);
      var i3 := IntersectPlane(point, normal, s.inP[a], s.outP[0]);
      TexAtIsLerp2D(s.inT[0], s.outT[0], i1.t);
      TexAtIsLerp2D(s.inT[0], s.outT[|s.outT| - 1], i2.t);
      TexAtIsLerp2D(s.inT[a], s.outT[0], i3.t);
    }
  }

  /** No vertex is inside: nothing comes back. */
  lemma ClipNoneInside(point: Vec3D, normal: Vec3D, tri: Tri)
    requires Dist(point, normal, tri.p0) < 0.0 && Dist(point, normal, tri.p1) < 0.0 && Dist(point, normal, tri.p2) < 0.0
    ensures ClipAgainstPlane(point, normal, tri) == []
  {
  }

  /** Every vertex is inside: the triangle comes back unchanged. */
  lemma ClipAllInside(point: Vec3D, normal: Vec3D, tri: Tri)
    requires Inside(point, normal, tri)
    ensures ClipAgainstPlane(point, normal, tri) == [tri]
  {
  }

  /** The point where the segment from an inside vertex to an outside vertex
      crosses the plane, and the texture coordinate at the same parameter. */
  function Cut(point: Vec3D, normal: Vec3D, pin: Vec3D, tin: Vec2D, pout: Vec3D, tout: Vec2D): (r: (Vec3D, Vec2D))
    requires Dist(point, normal, pin) >= 0.0 > Dist(point, normal, pout)
    ensures Dist(point, normal, r.0) == 0.0
    ensures exists t :: 0.0 <= t < 1.0 && SameXyz(r.0, Lerp(pin, pout, t)) && r.1 == TexAt(tin, tout, t)
  {
    IntersectParamInSegment(point, normal, pin, pout);
    var i := IntersectPlane(point, normal, pin, pout);
    (i.v, TexAt(tin, tout, i.t))
  }

  /** Exactly vertex k is inside: one triangle comes back. It starts at
      vertex k with its texture coordinate, its other two vertices are where
      the edges towards the outside vertices o0 < o1 cross the plane, and it
      keeps the light level. */
  lemma ClipOneInside(point: Vec3D, normal: Vec3D, tri: Tri, k: nat)
    requires k < 3 && Dist(point, normal, tri.P(k)) >= 0.0
    requires forall i :: 0 <= i < 3 && i != k ==> Dist(point, normal, tri.P(i)) < 0.0
    ensures var o0, o1 := if k == 0 then 1 else 0, if k == 2 then 1 else 2;
      var c1 := Cut(point, normal, tri.P(k), tri.T(k), tri.P(o0), tri.T(o0));
      var c2 := Cut(point, normal, tri.P(k), tri.T(k), tri.P(o1), tri.T(o1));
      ClipAgainstPlane(point, normal, tri) == [Tri(tri.P(k), c1.0, c2.0, tri.T(k), c1.1, c2.1, tri.l)]
  {
    var s := Classify(point, normal, tri);
    assert Dist(point, normal, tri.P(0)) >= 0.0 <==> k == 0;
    assert Dist(point, normal, tri.P(1)) >= 0.0 <==> k == 1;
    assert Dist(point, normal, tri.P(2)) >= 0.0 <==> k == 2;
  }

  /** Exactly vertex m is outside: two triangles come back, (in0, in1, P1)
      and (in1, P1, P2), where in0 < in1 are the inside vertices in their
      original order, P1 is where in0's edge to m crosses the plane and P2
      where in1's does. */
  lemma ClipTwoInside(point: Vec3D, normal: Vec3D, tri: Tri, m: nat)
    requires m < 3 && Dist(point, normal, tri.P(m)) < 0.0
    requires forall i :: 0 <= i < 3 && i != m ==> Dist(point, normal, tri.P(i)) >= 0.0
    ensures var a, b := if m == 0 then 1 else 0, if m == 2 then 1 else 2;
      var c1 := Cut(point, normal, tri.P(a), tri.T(a), tri.P(m), tri.T(m));
      var c2 := Cut(point, normal, tri.P(b), tri.T(b), tri.P(m), tri.T(m));
      ClipAgainstPlane(point, normal, tri) ==
        [Tri(tri.P(a), tri.P(b), c1.0, tri.T(a), tri.T(b), c1.1, tri.l),
         Tri(tri.P(b), c1.0, c2.0, tri.T(b), c1.1, c2.1, tri.l)]
  {
    var s := Classify(point, normal, tri);
    assert Dist(point, normal, tri.P(0)) < 0.0 <==> m == 0;
    assert Dist(point, normal, tri.P(1)) < 0.0 <==> m == 1;
    assert Dist(point, normal, tri.P(2)) < 0.0 <==> m == 2;
  }

  /** Every vertex of every output triangle is on the inside. */
  lemma ClipOutputInside(point: Vec3D, normal: Vec3D, tri: Tri)
    ensures AllInside(point, normal, ClipAgainstPlane(point, normal, tri))
  {
    var s := Classify(point, normal, tri);
    if |s.inP| == 1 || |s.inP| == 2 {
      var a := if |s.inP| == 1 then 0 else 1;
      IntersectParamInSegment(point, normal, s.inP[0], s.outP[0]);
      IntersectParamInSegment(point, normal, s.inP[0], s.outP[|s.outP| - 1]);
      IntersectParamInSegment(point, normal, s.inP[a], s.outP[0]);
    }
  }

  /** A point on the segment from a to b at t in [0, 1] is on the inside of
      every plane that has both a and b on its inside: half-spaces are
      convex. */
  lemma SegmentStaysInside(point: Vec3D, normal: Vec3D, a: Vec3D, b: Vec3D, t: real, v: Vec3D)
    requires 0.0 <= t <= 1.0 && SameXyz(v, Lerp(a, b, t))
    requires Dist(point, normal, a) >= 0.0 && Dist(point, normal, b) >= 0.0
    ensures Dist(point, normal, v) >= 0.0
  {
    LerpDot(a, b, t, normal);
    assert DotProduct(normal, v) == DotProduct(normal, Lerp(a, b, t));
    var da, db, dp := DotProduct(normal, a), DotProduct(normal, b), DotProduct(normal, point);
    ConvexCombination(da - dp, db - dp, t);
  }

  lemma ConvexCombination(x: real, y: real, t: real)
    requires 0.0 <= t <= 1.0 && x >= 0.0 && y >= 0.0
    ensures (1.0 - t) * x + t * y >= 0.0
  {
    MulNonNegative(1.0 - t, x);
    MulNonNegative(t, y);
  }

  lemma MulNonNegative(x: real, y: real)
    requires x >= 0.0 && y >= 0.0
    ensures x * y >= 0.0
  {
  }

  /** Clipping against one plane keeps a triangle inside any other plane it
      was inside: the new vertices lie on edges between old ones. */
  lemma ClipKeepsHalfSpace(point: Vec3D, normal: Vec3D, tri: Tri, q: Vec3D, n: Vec3D)
    requires Inside(q, n, tri)
    ensures AllInside(q, n, ClipAgainstPlane(point, normal, tri))
  {
    var s := Classify(point, normal, tri);
    if |s.inP| == 1 || |s.inP| == 2 {
      var a := if |s.inP| == 1 then 0 else 1;
      var o := |s.outP| - 1;
      CutStaysInside(point, normal, s.inP[0], s.outP[0], q, n);
      CutStaysInside(point, normal, s.inP[0], s.outP[o], q, n);
      CutStaysInside(point, normal, s.inP[a], s.outP[0], q, n);
    }
  }

  /** The crossing point of an inside-to-outside edge is inside (q, n) when
      both endpoints are. */
  lemma CutStaysInside(point: Vec3D, normal: Vec3D, pin: Vec3D, pout: Vec3D, q: Vec3D, n: Vec3D)
    requires Dist(point, normal, pin) >= 0.0 > Dist(point, normal, pout)
    requires Dist(q, n, pin) >= 0.0 && Dist(q, n, pout) >= 0.0
    ensures DotProduct(pout, normal) != DotProduct(pin, normal)
    ensures Dist(q, n, IntersectPlane(point, normal, pin, pout).v) >= 0.0
  {
    IntersectParamInSegment(point, normal, pin, pout);
    var i := IntersectPlane(point, normal, pin, pout);
    SegmentStaysInside(q, n, pin, pout, i.t, i.v);
  }

  /** The `reduce` that clips every triangle of a list against one plane
      and concatenates the results, in order. */
  function ClipAll(point: Vec3D, normal: Vec3D, tris: seq<Tri>): (r: seq<Tri>)
    ensures |r| <= 2 * |tris|
    ensures AllInside(point, normal, r)
  {
    if |tris| == 0 then []
    else
      ClipOutputInside(point, normal, tris[|tris| - 1]);
      ClipAll(point, normal, tris[..|tris| - 1]) + ClipAgainstPlane(point, normal, tris[|tris| - 1])
  }

  /** Clipping a list against one plane keeps every half-space the list was
      inside. */
  lemma {:induction false} ClipAllKeepsHalfSpace(point: Vec3D, normal: Vec3D, tris: seq<Tri>, q: Vec3D, n: Vec3D)
    requires AllInside(q, n, tris)
    ensures AllInside(q, n, ClipAll(point, normal, tris))
  {
    if |tris| > 0 {
      ClipAllKeepsHalfSpace(point, normal, tris[..|tris| - 1], q, n);
      ClipKeepsHalfSpace(point, normal, tris[|tris| - 1], q, n);
    }
  }

  /** A list already inside the plane passes through unchanged. */
  lemma {:induction false} ClipAllInsideUnchanged(point: Vec3D, normal: Vec3D, tris: seq<Tri>)
    requires AllInside(point, normal, tris)
    ensures ClipAll(point, normal, tris) == tris
  {
    if |tris| > 0 {
      ClipAllInsideUnchanged(point, normal, tris[..|tris| - 1]);
      ClipAllInside(point, normal, tris[|tris| - 1]);
      assert tris[..|tris| - 1] + [tris[|tris| - 1]] == tris;
    }
  }
}
