/** The first version of the renderer in src/index.ts: points without a w
    coordinate, triangles as triples of points, matrices as four rows of
    four numbers, the helpers that transform whole triangles, and the unit
    cube the prototype draws. Its `setup` and `mainLoop` are canvas and
    timing glue and are not part of this model. */
module Prototype {
  import Vectors
  import Matrices

  /** The prototype's `Vec3D`: x, y and z only. */
  datatype Point = Point(x: real, y: real, z: real)

  /** Its `Tri`: three points in order. */
  datatype Tri = Tri(p1: Point, p2: Point, p3: Point)

  /** The point as the homogeneous row (x, y, z, 1) times the matrix: the
      source never reads a w from its input, so row 3 of the matrix is
      always added. */
  function Homogeneous(p: Point, mat: Matrices.Matrix4): Matrices.Vec4 {
    Matrices.RowTimes(Matrices.Vec4(p.x, p.y, p.z, 1.0), mat)
  }

  /** `MultiplyVectorMatrix`: the product, divided by its w component when
      that is not zero and left undivided when it is. */
  function MultiplyVectorMatrix(p: Point, mat: Matrices.Matrix4): (r: Point)
    ensures var h := Homogeneous(p, mat);
      h.c3 != 0.0 ==> r.x * h.c3 == h.c0 && r.y * h.c3 == h.c1 && r.z * h.c3 == h.c2
    ensures var h := Homogeneous(p, mat);
      h.c3 == 0.0 ==> r == Point(h.c0, h.c1, h.c2)
  {
    var h := Homogeneous(p, mat);
    if h.c3 != 0.0 then Point(h.c0 / h.c3, h.c1 / h.c3, h.c2 / h.c3)
    else Point(h.c0, h.c1, h.c2)
  }

  /** The identity matrix maps every point to itself. */
  lemma MultiplyVectorMatrixIdentity(p: Point)
    ensures MultiplyVectorMatrix(p, Matrices.Identity()) == p
  {
  }

  /** For an affine matrix (column 3 is (0, 0, 0, 1)) the computed w is 1
      and the result is the x, y and z of `MultiplyVector` of src/matrix.ts
      applied to the point with w = 1. */
  lemma MultiplyVectorMatrixAffine(p: Point, mat: Matrices.Matrix4)
    requires mat.r0.c3 == 0.0 && mat.r1.c3 == 0.0 && mat.r2.c3 == 0.0 && mat.r3.c3 == 1.0
    ensures var q := Matrices.MultiplyVector(Vectors.Make3D(p.x, p.y, p.z), mat);
      MultiplyVectorMatrix(p, mat) == Point(q.x, q.y, q.z) && q.w == 1.0
  {
  }

  /** The projection matrix the prototype builds in `setup`, for a field-of
      view factor f, an aspect ratio a and clip depths near < far. */
  function Projection(f: real, a: real, near: real, far: real): (m: Matrices.Matrix4)
    requires 0.0 < near < far
    ensures m == Matrices.MakeProjection(f, a, near, far)
  {
    Matrices.Matrix4(
      Matrices.Vec4(a * f, 0.0, 0.0, 0.0),
      Matrices.Vec4(0.0, f, 0.0, 0.0),
      Matrices.Vec4(0.0, 0.0, far / (far - near), 1.0),
      Matrices.Vec4(0.0, 0.0, (-far * near) / (far - near), 0.0))
  }

  /** Through the projection, the computed w is the depth z, so a point in
      front of the camera is divided by its depth, and the depths from near
      to far land in [0, 1] (near at 0, far at 1). */
  lemma ProjectionDividesByDepth(p: Point, f: real, a: real, near: real, far: real)
    requires 0.0 < near < far && p.z != 0.0
    ensures var r := MultiplyVectorMatrix(p, Projection(f, a, near, far));
      && r.x * p.z == a * f * p.x && r.y * p.z == f * p.y
      && r.z * p.z * (far - near) == far * (p.z - near)
  {
    var m := Projection(f, a, near, far);
    var h := Homogeneous(p, m);
    assert h.c3 == p.z;
    var k := far / (far - near);
    assert (-far * near) / (far - near) == -k * near;
    assert h.c2 == k * (p.z - near);
    assert k * (far - near) == far;
  }

  lemma ProjectionDepthRange(p: Point, f: real, a: real, near: real, far: real)
    requires 0.0 < near < far && near <= p.z <= far
    ensures var r := MultiplyVectorMatrix(p, Projection(f, a, near, far));
      0.0 <= r.z <= 1.0 && (p.z == near ==> r.z == 0.0) && (p.z == far ==> r.z == 1.0)
  {
    ProjectionDividesByDepth(p, f, a, near, far);
    var r := MultiplyVectorMatrix(p, Projection(f, a, near, far));
    DepthFraction(r.z, p.z, near, far);
  }

  /** The depth equation r * z * (far - near) == far * (z - near) puts r in
      [0, 1] for z in [near, far]. */
  lemma DepthFraction(r: real, z: real, near: real, far: real)
    requires 0.0 < near < far && near <= z <= far
    requires r * z * (far - near) == far * (z - near)
    ensures 0.0 <= r <= 1.0 && (z == near ==> r == 0.0) && (z == far ==> r == 1.0)
  {
    var g := far - near;
    var d := z * g;
    var n := far * (z - near);
    MulPos(z, g);
    assert r * d == n;
    assert n >= 0.0 by { MulNonNeg(far, z - near); }
    assert n - d == near * (z - far);
    assert n <= d by { MulNonPos(near, z - far); }
    QuotientBounds(r, d, n);
  }

  lemma MulPos(a: real, b: real)
    requires a > 0.0 && b > 0.0
    ensures a * b > 0.0
  {
  }

  lemma MulNonNeg(a: real, b: real)
    requires a > 0.0 && b >= 0.0
    ensures a * b >= 0.0
  {
  }

  lemma MulNonPos(a: real, b: real)
    requires a > 0.0 && b <= 0.0
    ensures a * b <= 0.0
  {
  }

  /** r * d == n with d > 0: r has the sign of n, and r <= 1 when n <= d. */
  lemma QuotientBounds(r: real, d: real, n: real)
    requires d > 0.0 && r * d == n
    ensures n >= 0.0 ==> r >= 0.0
    ensures n <= d ==> r <= 1.0
    ensures n == 0.0 ==> r == 0.0
    ensures n == d ==> r == 1.0
  {
    if n >= 0.0 && r < 0.0 {
      MulNegPos(r, d);
    }
    if n <= d && r > 1.0 {
      MulNegPos(1.0 - r, d);
    }
  }

  lemma MulNegPos(a: real, b: real)
    requires a < 0.0 && b > 0.0
    ensures a * b < 0.0
  {
  }

  // The vertex helpers and the triangle helpers that apply them to each
  // vertex in turn.

  function MultiplyVectorConst(p: Point, c: real): Point {
    Point(p.x * c, p.y * c, p.z * c)
  }

  function AddVectorConst(p: Point, c: real): Point {
    Point(p.x + c, p.y + c, p.z + c)
  }

  function AddVector(p: Point, v: Point): Point {
    Point(p.x + v.x, p.y + v.y, p.z + v.z)
  }

  function MultiplyVector(p: Point, v: Point): Point {
    Point(p.x * v.x, p.y * v.y, p.z * v.z)
  }

  function MultiplyTriMatrix(t: Tri, mat: Matrices.Matrix4): Tri {
    Tri(MultiplyVectorMatrix(t.p1, mat), MultiplyVectorMatrix(t.p2, mat), MultiplyVectorMatrix(t.p3, mat))
  }

  function MultiplyTriConst(t: Tri, c: real): Tri {
    Tri(MultiplyVectorConst(t.p1, c), MultiplyVectorConst(t.p2, c), MultiplyVectorConst(t.p3, c))
  }

  function AddTriConst(t: Tri, c: real): Tri {
    Tri(AddVectorConst(t.p1, c), AddVectorConst(t.p2, c), AddVectorConst(t.p3, c))
  }

  function AddTriVector(t: Tri, v: Point): Tri {
    Tri(AddVector(t.p1, v), AddVector(t.p2, v), AddVector(t.p3, v))
  }

  function MultiplyTriVector(t: Tri, v: Point): Tri {
    Tri(MultiplyVector(t.p1, v), MultiplyVector(t.p2, v), MultiplyVector(t.p3, v))
  }

  /** The same triangle listed from its second vertex. */
  function Rotated(t: Tri): Tri {
    Tri(t.p2, t.p3, t.p1)
  }

  /** The helpers treat the three vertices alike and keep their order:
      each commutes with listing the triangle from another vertex. */
  lemma TriHelpersKeepOrder(t: Tri, mat: Matrices.Matrix4, c: real, v: Point)
    ensures MultiplyTriMatrix(Rotated(t), mat) == Rotated(MultiplyTriMatrix(t, mat))
    ensures MultiplyTriConst(Rotated(t), c) == Rotated(MultiplyTriConst(t, c))
    ensures AddTriConst(Rotated(t), c) == Rotated(AddTriConst(t, c))
    ensures AddTriVector(Rotated(t), v) == Rotated(AddTriVector(t, v))
    ensures MultiplyTriVector(Rotated(t), v) == Rotated(MultiplyTriVector(t, v))
  {
  }

  /** Adding a vector and then its negation, or a constant and then its
      negation, gives the triangle back. */
  lemma AddTriInverse(t: Tri, v: Point, c: real)
    ensures AddTriVector(AddTriVector(t, v), Point(-v.x, -v.y, -v.z)) == t
    ensures AddTriConst(AddTriConst(t, c), -c) == t
  {
  }

  /** Scaling by c and then by 1 / c gives the triangle back. */
  lemma MultiplyTriConstInverse(t: Tri, c: real)
    requires c != 0.0
    ensures MultiplyTriConst(MultiplyTriConst(t, c), 1.0 / c) == t
  {
    ScaleBack(t.p1, c);
    ScaleBack(t.p2, c);
    ScaleBack(t.p3, c);
  }

  lemma ScaleBack(p: Point, c: real)
    requires c != 0.0
    ensures MultiplyVectorConst(MultiplyVectorConst(p, c), 1.0 / c) == p
  {
    assert c * (1.0 / c) == 1.0;
    assert p.x * c * (1.0 / c) == p.x * (c * (1.0 / c));
    assert p.y * c * (1.0 / c) == p.y * (c * (1.0 / c));
    assert p.z * c * (1.0 / c) == p.z * (c * (1.0 / c));
  }

  /** Multiplying by the translation matrix of src/matrix.ts is adding the
      offset, and multiplying by the identity changes nothing. */
  lemma MultiplyTriMatrixTranslation(t: Tri, d: Point)
    ensures MultiplyTriMatrix(t, Matrices.MakeTranslation(Vectors.Make3D(d.x, d.y, d.z))) == AddTriVector(t, d)
    ensures MultiplyTriMatrix(t, Matrices.Identity()) == t
  {
  }

  // The cube.

  /** `cube`: two triangles for each side, in the order south, east, north,
      west, top, bottom. */
  function Cube(): (r: seq<Tri>)
    ensures |r| == 12
  {
    [
      Tri(Point(0.0, 0.0, 0.0), Point(1.0, 1.0, 0.0), Point(1.0, 0.0, 0.0)),
      Tri(Point(0.0, 0.0, 0.0), Point(0.0, 1.0, 0.0), Point(1.0, 1.0, 0.0)),
      Tri(Point(1.0, 0.0, 0.0), Point(1.0, 1.0, 0.0), Point(1.0, 1.0, 1.0)),
      Tri(Point(1.0, 0.0, 0.0), Point(1.0, 1.0, 1.0), Point(1.0, 0.0, 1.0)),
      Tri(Point(1.0, 0.0, 1.0), Point(1.0, 1.0, 1.0), Point(0.0, 1.0, 1.0)),
      Tri(Point(1.0, 0.0, 1.0), Point(0.0, 1.0, 1.0), Point(0.0, 0.0, 1.0)),
      Tri(Point(0.0, 0.0, 1.0), Point(0.0, 1.0, 1.0), Point(0.0, 1.0, 0.0)),
      Tri(Point(0.0, 0.0, 1.0), Point(0.0, 1.0, 0.0), Point(0.0, 0.0, 0.0)),
      Tri(Point(0.0, 1.0, 0.0), Point(0.0, 1.0, 1.0), Point(1.0, 1.0, 1.0)),
      Tri(Point(0.0, 1.0, 0.0), Point(1.0, 1.0, 1.0), Point(1.0, 1.0, 0.0)),
      Tri(Point(1.0, 0.0, 1.0), Point(0.0, 0.0, 1.0), Point(0.0, 0.0, 0.0)),
      Tri(Point(1.0, 0.0, 1.0), Point(0.0, 0.0, 0.0), Point(1.0, 0.0, 0.0))
    ]
  }

  predicate Bit(c: real) {
    c == 0.0 || c == 1.0
  }

  /** A corner of the unit cube. */
  predicate Corner(p: Point) {
    Bit(p.x) && Bit(p.y) && Bit(p.z)
  }

  /** The six sides in the source's order: the plane is `axis` (0 for x,
      1 for y, 2 for z) fixed at `level`. */
  function Axis(side: nat): nat {
    if side == 0 || side == 2 then 2 else if side == 1 || side == 3 then 0 else 1
  }

  function Level(side: nat): real {
    if side == 0 || side == 3 || side == 5 then 0.0 else 1.0
  }

  function Coord(p: Point, axis: nat): real {
    if axis == 0 then p.x else if axis == 1 then p.y else p.z
  }

  /** All three vertices lie in the plane of `side`. */
  predicate OnSide(t: Tri, side: nat) {
    Coord(t.p1, Axis(side)) == Level(side) && Coord(t.p2, Axis(side)) == Level(side)
      && Coord(t.p3, Axis(side)) == Level(side)
  }

  function Vertices(t: Tri): set<Point> {
    {t.p1, t.p2, t.p3}
  }

  /** The four corners of `side`. */
  function SideCorners(side: nat): set<Point> {
    var l := Level(side);
    if Axis(side) == 0 then {Point(l, 0.0, 0.0), Point(l, 0.0, 1.0), Point(l, 1.0, 0.0), Point(l, 1.0, 1.0)}
    else if Axis(side) == 1 then {Point(0.0, l, 0.0), Point(0.0, l, 1.0), Point(1.0, l, 0.0), Point(1.0, l, 1.0)}
    else {Point(0.0, 0.0, l), Point(0.0, 1.0, l), Point(1.0, 0.0, l), Point(1.0, 1.0, l)}
  }

  /** A triangle of side `k`: its vertices are corners in that side's
      plane. */
  predicate OnCubeSide(t: Tri, k: nat) {
    OnSide(t, k) && Corner(t.p1) && Corner(t.p2) && Corner(t.p3)
  }

  lemma CubeTriangle(i: nat)
    requires i < 12
    ensures OnCubeSide(Cube()[i], i / 2)
  {
  }

  /** The two triangles of side `k` together touch all four of its
      corners. */
  lemma CubeSideCovered(k: nat)
    requires k < 6
    ensures Vertices(Cube()[2 * k]) + Vertices(Cube()[2 * k + 1]) == SideCorners(k)
  {
  }

  /** The cube has twelve triangles, two on each of its six sides (entries
      2k and 2k + 1 on side k), every vertex a corner, each pair covering
      its side's four corners. */
  lemma CubeShape()
    ensures |Cube()| == 12
    ensures forall i :: 0 <= i < 12 ==> OnCubeSide(Cube()[i], i / 2)
    ensures forall k :: 0 <= k < 6 ==> Vertices(Cube()[2 * k]) + Vertices(Cube()[2 * k + 1]) == SideCorners(k)
  {
    forall i | 0 <= i < 12
      ensures OnCubeSide(Cube()[i], i / 2)
    {
      CubeTriangle(i);
    }
    forall k | 0 <= k < 6
      ensures Vertices(Cube()[2 * k]) + Vertices(Cube()[2 * k + 1]) == SideCorners(k)
    {
      CubeSideCovered(k);
    }
  }
}
