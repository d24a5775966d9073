/** Homogeneous vectors (src/vector.ts).

    `Vec3D` is the source's IVec3D {x, y, z, w}; `Vec2D` is IVec2D {u, v, w},
    a texture coordinate whose w carries the reciprocal depth. Both are values
    here: the source's objects are shared by reference in places, which the
    model does not reproduce. Every arithmetic helper builds its result with
    `make3D`, whose w defaults to 1, so it forgets the inputs' w. */
module Vectors {
  import opened Maths

  datatype Vec3D = Vec3D(x: real, y: real, z: real, w: real)

  datatype Vec2D = Vec2D(u: real, v: real, w: real)

  /** The result of `IntersectPlane`: the point and the segment parameter. */
  datatype Intersection = Intersection(v: Vec3D, t: real)

  /** `make3D(x, y, z)` with the default w = 1. */
  function Make3D(x: real, y: real, z: real): Vec3D {
    Vec3D(x, y, z, 1.0)
  }

  /** `make2D(u, v)` with the default w = 1. */
  function Make2D(u: real, v: real): Vec2D {
    Vec2D(u, v, 1.0)
  }

  /** Two vectors agree as points of space: x, y and z, whatever their w. */
  predicate SameXyz(a: Vec3D, b: Vec3D) {
    a.x == b.x && a.y == b.y && a.z == b.z
  }

  function Add(v1: Vec3D, v2: Vec3D): (r: Vec3D)
    ensures r.w == 1.0
  {
    Make3D(v1.x + v2.x, v1.y + v2.y, v1.z + v2.z)
  }

  function Subtract(v1: Vec3D, v2: Vec3D): (r: Vec3D)
    ensures r.w == 1.0
  {
    Make3D(v1.x - v2.x, v1.y - v2.y, v1.z - v2.z)
  }

  function Multiply(v1: Vec3D, v2: Vec3D): (r: Vec3D)
    ensures r.w == 1.0
  {
    Make3D(v1.x * v2.x, v1.y * v2.y, v1.z * v2.z)
  }

  function AddConst(v: Vec3D, c: real): (r: Vec3D)
    ensures r.w == 1.0
  {
    Make3D(v.x + c, v.y + c, v.z + c)
  }

  function MultiplyConst(v: Vec3D, c: real): (r: Vec3D)
    ensures r.w == 1.0
  {
    Make3D(v.x * c, v.y * c, v.z * c)
  }

  /** Scales u and v; the result's w is the default 1, not the input's. */
  function MultiplyConst2D(t: Vec2D, c: real): (r: Vec2D)
    ensures r.w == 1.0
  {
    Make2D(t.u * c, t.v * c)
  }

  function Invert(v: Vec3D): (r: Vec3D)
    ensures r.w == 1.0
  {
    MultiplyConst(v, -1.0)
  }

  function DotProduct(a: Vec3D, b: Vec3D): real {
    a.x * b.x + a.y * b.y + a.z * b.z
  }

  /** The squared length, `size(v) ** 2`. */
  function Size2(v: Vec3D): (r: real)
    ensures r >= 0.0
  {
    v.x * v.x + v.y * v.y + v.z * v.z
  }

  function CrossProduct(a: Vec3D, b: Vec3D): (r: Vec3D)
    ensures r.w == 1.0
  {
    Make3D(
      a.y * b.z - a.z * b.y,
      a.z * b.x - a.x * b.z,
      a.x * b.y - a.y * b.x)
  }

  /** The cross product is orthogonal to both factors. */
  lemma CrossOrthogonal(a: Vec3D, b: Vec3D)
    ensures DotProduct(a, CrossProduct(a, b)) == 0.0 && DotProduct(b, CrossProduct(a, b)) == 0.0
  {
    CrossScalar(a.x, a.y, a.z, b.x, b.y, b.z);
    CrossScalar(b.x, b.y, b.z, a.x, a.y, a.z);
  }

  lemma CrossScalar(a1: real, a2: real, a3: real, b1: real, b2: real, b3: real)
    ensures a1 * (a2 * b3 - a3 * b2) + a2 * (a3 * b1 - a1 * b3) + a3 * (a1 * b2 - a2 * b1) == 0.0
  {
  }

  /** `Normalize`: divides by the Euclidean length, which `math.sqrt` supplies.
      The source produces NaN for the zero vector; the model excludes it. */
  function Normalize(v: Vec3D, math: MathLib): (r: Vec3D)
    requires math.Valid() && Size2(v) > 0.0
    ensures Size2(r) == 1.0 && r.w == 1.0
    ensures exists k :: k > 0.0 && SameXyz(r, MultiplyConst(v, k))
  {
    var l := math.sqrt(Size2(v));
    var r := Make3D(v.x / l, v.y / l, v.z / l);
    assert Size2(r) == Size2(v) / (l * l);
    assert SameXyz(r, MultiplyConst(v, 1.0 / l));
    r
  }

  /** A vector of length 1 is its own normalisation (in x, y and z). */
  lemma NormalizeUnit(v: Vec3D, math: MathLib)
    requires math.Valid() && Size2(v) == 1.0
    ensures Normalize(v, math) == Make3D(v.x, v.y, v.z)
  {
    var l := math.sqrt(1.0);
    UnitRoot(l);
  }

  /** The positive square root of 1 is 1. */
  lemma UnitRoot(l: real)
    requires l > 0.0 && l * l == 1.0
    ensures l == 1.0
  {
    ZeroFactor(l - 1.0, l + 1.0, (l - 1.0) * (l + 1.0));
  }

  /** A product is zero only when a factor is. */
  lemma ZeroFactor(a: real, b: real, p: real)
    requires p == a * b && p == 0.0 && b != 0.0
    ensures a == 0.0
  {
    assert a == p / b;
  }

  /** The signed distance of `p` from the plane through `point` with normal
      `normal`, as `ClipAgainstPlane` computes it. */
  function Dist(point: Vec3D, normal: Vec3D, p: Vec3D): real {
    DotProduct(normal, p) - DotProduct(normal, point)
  }

  /** `IntersectPlane`: where the line through lineStart and lineEnd meets the
      plane, with the parameter t along the line. The source divides by
      bd - ad without a check; the model requires the line not to be parallel. */
  function IntersectPlane(point: Vec3D, normal: Vec3D, lineStart: Vec3D, lineEnd: Vec3D): (r: Intersection)
    requires DotProduct(lineEnd, normal) != DotProduct(lineStart, normal)
    ensures SameXyz(r.v, Lerp(lineStart, lineEnd, r.t)) && r.v.w == 1.0
    ensures DotProduct(normal, r.v) == DotProduct(normal, point)
    ensures Dist(point, normal, r.v) == 0.0
  {
    var planeD := -DotProduct(point, normal);
    var ad := DotProduct(lineStart, normal);
    var bd := DotProduct(lineEnd, normal);
    var t := (-planeD - ad) / (bd - ad);
    var lineStartToEnd := Subtract(lineEnd, lineStart);
    var lineToIntersect := MultiplyConst(lineStartToEnd, t);
    var v := Add(lineStart, lineToIntersect);
    LerpDot(lineStart, lineEnd, t, normal);
    assert DotProduct(normal, v) == ad + t * (bd - ad);
    Intersection(v, t)
  }

  /** The dot product with a fixed vector is affine along a line. */
  lemma LerpDot(a: Vec3D, b: Vec3D, t: real, n: Vec3D)
    ensures DotProduct(n, Lerp(a, b, t)) == (1.0 - t) * DotProduct(n, a) + t * DotProduct(n, b)
    ensures DotProduct(n, Add(a, MultiplyConst(Subtract(b, a), t))) == DotProduct(n, a) + t * (DotProduct(n, b) - DotProduct(n, a))
  {
    var l := Lerp(a, b, t);
    var s := Add(a, MultiplyConst(Subtract(b, a), t));
    var x := LerpScalar(n.x, a.x, b.x, t);
    var y := LerpScalar(n.y, a.y, b.y, t);
    var z := LerpScalar(n.z, a.z, b.z, t);
    assert n.x * l.x + n.y * l.y + n.z * l.z == x.0 + y.0 + z.0;
    assert n.x * s.x + n.y * s.y + n.z * s.z == x.1 + y.1 + z.1;
  }

  /** One coordinate's term of `LerpDot`, in both of its forms. */
  lemma LerpScalar(n: real, a: real, b: real, t: real) returns (p: (real, real))
    ensures p.0 == n * (a * (1.0 - t) + b * t) == (1.0 - t) * (n * a) + t * (n * b)
    ensures p.1 == n * (a + (b - a) * t) == n * a + t * (n * b - n * a)
  {
    p := (n * (a * (1.0 - t) + b * t), n * (a + (b - a) * t));
  }

  /** When the segment starts inside the plane (signed distance >= 0) and ends
      outside (< 0), the intersection parameter lies in [0, 1). */
  lemma IntersectParamInSegment(point: Vec3D, normal: Vec3D, lineStart: Vec3D, lineEnd: Vec3D)
    requires Dist(point, normal, lineStart) >= 0.0 > Dist(point, normal, lineEnd)
    ensures DotProduct(lineEnd, normal) != DotProduct(lineStart, normal)
    ensures 0.0 <= IntersectPlane(point, normal, lineStart, lineEnd).t < 1.0
  {
    var ad := DotProduct(lineStart, normal);
    var bd := DotProduct(lineEnd, normal);
    var pd := DotProduct(point, normal);
    assert DotProduct(normal, lineStart) == ad && DotProduct(normal, lineEnd) == bd && DotProduct(normal, point) == pd;
    assert IntersectPlane(point, normal, lineStart, lineEnd).t == (pd - ad) / (bd - ad);
    NegatedQuotient(ad - pd, ad - bd);
    UnitQuotient(ad - pd, ad - bd);
  }

  lemma NegatedQuotient(n: real, d: real)
    requires d != 0.0
    ensures (-n) / (-d) == n / d
  {
  }

  /** A quotient of 0 <= n < d lies in [0, 1). */
  lemma UnitQuotient(n: real, d: real)
    requires 0.0 <= n < d
    ensures 0.0 <= n / d < 1.0
  {
  }

  /** Linear interpolation of x, y and z; w is the default 1. */
  function Lerp(start: Vec3D, end: Vec3D, t: real): (r: Vec3D)
    ensures t == 0.0 ==> SameXyz(r, start)
    ensures t == 1.0 ==> SameXyz(r, end)
    ensures r.w == 1.0
  {
    Make3D(
      start.x * (1.0 - t) + end.x * t,
      start.y * (1.0 - t) + end.y * t,
      start.z * (1.0 - t) + end.z * t)
  }

  function Make3DFrom2D(t: Vec2D): (r: Vec3D)
    ensures r.w == 1.0
  {
    Make3D(t.u, t.v, t.w)
  }

  function Make2DFrom3D(p: Vec3D): Vec2D {
    Vec2D(p.x, p.y, p.z)
  }

  /** Converting a texture coordinate to a vector and back gives it back,
      w included. */
  lemma Make2DFrom3DInverse(t: Vec2D)
    ensures Make2DFrom3D(Make3DFrom2D(t)) == t
  {
  }

  /** `lerp2D`, computed through 3D vectors as the source does: u, v and w are
      all interpolated. */
  function Lerp2D(start: Vec2D, end: Vec2D, t: real): (r: Vec2D)
    ensures t == 0.0 ==> r == start
    ensures t == 1.0 ==> r == end
  {
    Make2DFrom3D(Add(MultiplyConst(Make3DFrom2D(start), 1.0 - t), MultiplyConst(Make3DFrom2D(end), t)))
  }

  /** Adding then subtracting the same vector restores x, y and z. */
  lemma AddSubtractInverse(a: Vec3D, b: Vec3D)
    ensures Subtract(Add(a, b), b) == Make3D(a.x, a.y, a.z)
    ensures Add(Subtract(a, b), b) == Make3D(a.x, a.y, a.z)
  {
  }

  /** Inverting twice restores x, y and z. */
  lemma InvertInvolution(v: Vec3D)
    ensures Invert(Invert(v)) == Make3D(v.x, v.y, v.z)
  {
  }

  /** Adding a constant to every coordinate is undone by adding its negation. */
  lemma AddConstInverse(v: Vec3D, c: real)
    ensures AddConst(AddConst(v, c), -c) == Make3D(v.x, v.y, v.z)
  {
  }

  /** Scaling by a non-zero constant is undone by scaling by its reciprocal. */
  lemma MultiplyConstInverse(v: Vec3D, c: real)
    requires c != 0.0
    ensures MultiplyConst(MultiplyConst(v, c), 1.0 / c) == Make3D(v.x, v.y, v.z)
  {
    ScaledBack(v.x, c);
    ScaledBack(v.y, c);
    ScaledBack(v.z, c);
  }

  /** The same for texture coordinates (the w is reset to 1 either way). */
  lemma MultiplyConst2DInverse(t: Vec2D, c: real)
    requires c != 0.0
    ensures MultiplyConst2D(MultiplyConst2D(t, c), 1.0 / c) == Make2D(t.u, t.v)
  {
    ScaledBack(t.u, c);
    ScaledBack(t.v, c);
  }

  /** Component-wise multiplication is undone by multiplying with the
      component-wise reciprocals, when no component is zero. */
  lemma MultiplyInverse(v1: Vec3D, v2: Vec3D)
    requires v2.x != 0.0 && v2.y != 0.0 && v2.z != 0.0
    ensures Multiply(Multiply(v1, v2), Make3D(1.0 / v2.x, 1.0 / v2.y, 1.0 / v2.z)) == Make3D(v1.x, v1.y, v1.z)
  {
    ScaledBack(v1.x, v2.x);
    ScaledBack(v1.y, v2.y);
    ScaledBack(v1.z, v2.z);
  }

  lemma ScaledBack(a: real, c: real)
    requires c != 0.0
    ensures a * c * (1.0 / c) == a
  {
    assert c * (1.0 / c) == 1.0;
    assert a * c * (1.0 / c) == a * (c * (1.0 / c));
  }

  // Three-dimensional linear algebra used by the rigid-transform proofs.

  predicate Orthonormal(a: Vec3D, b: Vec3D, c: Vec3D) {
    && Size2(a) == 1.0 && Size2(b) == 1.0 && Size2(c) == 1.0
    && DotProduct(a, b) == 0.0 && DotProduct(a, c) == 0.0 && DotProduct(b, c) == 0.0
  }

  lemma LagrangeIdentity(a: Vec3D, b: Vec3D)
    ensures Size2(CrossProduct(a, b)) == Size2(a) * Size2(b) - DotProduct(a, b) * DotProduct(a, b)
  {
  }

  /** The cross product of two orthogonal unit vectors is a unit vector. */
  lemma CrossOfUnits(a: Vec3D, b: Vec3D)
    requires Size2(a) == 1.0 && Size2(b) == 1.0 && DotProduct(a, b) == 0.0
    ensures Size2(CrossProduct(a, b)) == 1.0
  {
    LagrangeIdentity(a, b);
  }

  /** The x component of (a x b) x y; the other two follow by rotating
      the coordinates. */
  lemma TripleScalar(a1: real, a2: real, a3: real, b1: real, b2: real, b3: real, y1: real, y2: real, y3: real)
    ensures (a3 * b1 - a1 * b3) * y3 - (a1 * b2 - a2 * b1) * y2
         == b1 * (a1 * y1 + a2 * y2 + a3 * y3) - a1 * (b1 * y1 + b2 * y2 + b3 * y3)
  {
  }

  lemma TripleProductX(a: Vec3D, b: Vec3D, y: Vec3D)
    ensures CrossProduct(CrossProduct(a, b), y).x == b.x * DotProduct(a, y) - a.x * DotProduct(b, y)
  {
    TripleScalar(a.x, a.y, a.z, b.x, b.y, b.z, y.x, y.y, y.z);
  }

  lemma TripleProductY(a: Vec3D, b: Vec3D, y: Vec3D)
    ensures CrossProduct(CrossProduct(a, b), y).y == b.y * DotProduct(a, y) - a.y * DotProduct(b, y)
  {
    TripleScalar(a.y, a.z, a.x, b.y, b.z, b.x, y.y, y.z, y.x);
  }

  lemma TripleProductZ(a: Vec3D, b: Vec3D, y: Vec3D)
    ensures CrossProduct(CrossProduct(a, b), y).z == b.z * DotProduct(a, y) - a.z * DotProduct(b, y)
  {
    TripleScalar(a.z, a.x, a.y, b.z, b.x, b.y, y.z, y.x, y.y);
  }

  /** Orthogonal to two orthonormal vectors means parallel to their cross
      product: the squared length is the squared component along it. */
  lemma PerpToPair(a: Vec3D, b: Vec3D, y: Vec3D)
    requires Size2(a) == 1.0 && Size2(b) == 1.0 && DotProduct(a, b) == 0.0
    requires DotProduct(a, y) == 0.0 && DotProduct(b, y) == 0.0
    ensures Size2(y) == DotProduct(CrossProduct(a, b), y) * DotProduct(CrossProduct(a, b), y)
  {
    var n := CrossProduct(a, b);
    CrossOfUnits(a, b);
    LagrangeIdentity(n, y);
    TripleProductX(a, b, y);
    TripleProductY(a, b, y);
    TripleProductZ(a, b, y);
    var m := CrossProduct(n, y);
    assert m.x == 0.0 && m.y == 0.0 && m.z == 0.0;
    assert Size2(m) == 0.0;
  }

  lemma SizeOfSum(y: Vec3D, c: Vec3D)
    ensures Size2(Add(y, c)) == Size2(y) + 2.0 * DotProduct(y, c) + Size2(c)
  {
  }

  /** From ky^2 + kc^2 = (ky + kc)^2 and kc^2 = 1 it follows that ky = 0. */
  lemma CrossTermVanishes(ky: real, kc: real, s: real)
    requires kc * kc == 1.0 && s == (ky + kc) * (ky + kc) && s == ky * ky + kc * kc
    ensures ky == 0.0
  {
    assert ky * kc == 0.0;
    assert ky == ky * (kc * kc);
    assert ky * (kc * kc) == (ky * kc) * kc;
  }

  /** Nothing but the zero vector is orthogonal to all three vectors of an
      orthonormal triple. */
  lemma PerpToTriple(a: Vec3D, b: Vec3D, c: Vec3D, y: Vec3D)
    requires Orthonormal(a, b, c)
    requires DotProduct(a, y) == 0.0 && DotProduct(b, y) == 0.0 && DotProduct(c, y) == 0.0
    ensures Size2(y) == 0.0
  {
    var n := CrossProduct(a, b);
    var s := Add(y, c);
    PerpToPair(a, b, y);
    PerpToPair(a, b, c);
    PerpToPair(a, b, s);
    SizeOfSum(y, c);
    assert DotProduct(y, c) == 0.0;
    assert DotProduct(n, s) == DotProduct(n, y) + DotProduct(n, c);
    CrossTermVanishes(DotProduct(n, y), DotProduct(n, c), Size2(s));
  }

  /** What is left of x after removing its components along a, b and c. */
  function Residual(a: Vec3D, b: Vec3D, c: Vec3D, x: Vec3D): Vec3D {
    var da, db, dc := DotProduct(a, x), DotProduct(b, x), DotProduct(c, x);
    Make3D(x.x - (da * a.x + db * b.x + dc * c.x),
           x.y - (da * a.y + db * b.y + dc * c.y),
           x.z - (da * a.z + db * b.z + dc * c.z))
  }

  lemma DotOfResidual(a: Vec3D, b: Vec3D, c: Vec3D, x: Vec3D, v: Vec3D)
    ensures DotProduct(v, Residual(a, b, c, x))
         == DotProduct(v, x) - DotProduct(a, x) * DotProduct(v, a)
            - DotProduct(b, x) * DotProduct(v, b) - DotProduct(c, x) * DotProduct(v, c)
  {
  }

  lemma Collapse(d: real, s: real, e1: real, f1: real, e2: real, f2: real)
    requires s == 1.0 && f1 == 0.0 && f2 == 0.0
    ensures d - d * s - e1 * f1 - e2 * f2 == 0.0
  {
  }

  /** The residual is orthogonal to each vector of an orthonormal triple. */
  lemma ResidualPerp(a: Vec3D, b: Vec3D, c: Vec3D, x: Vec3D)
    requires Orthonormal(a, b, c)
    ensures DotProduct(a, Residual(a, b, c, x)) == 0.0
    ensures DotProduct(b, Residual(a, b, c, x)) == 0.0
    ensures DotProduct(c, Residual(a, b, c, x)) == 0.0
  {
    DotOfResidual(a, b, c, x, a);
    DotOfResidual(a, b, c, x, b);
    DotOfResidual(a, b, c, x, c);
    assert DotProduct(a, a) == 1.0 && DotProduct(b, b) == 1.0 && DotProduct(c, c) == 1.0;
    assert DotProduct(b, a) == 0.0 && DotProduct(c, a) == 0.0 && DotProduct(c, b) == 0.0;
    Collapse(DotProduct(a, x), DotProduct(a, a), DotProduct(b, x), DotProduct(a, b), DotProduct(c, x), DotProduct(a, c));
    Collapse(DotProduct(b, x), DotProduct(b, b), DotProduct(a, x), DotProduct(b, a), DotProduct(c, x), DotProduct(b, c));
    Collapse(DotProduct(c, x), DotProduct(c, c), DotProduct(a, x), DotProduct(c, a), DotProduct(b, x), DotProduct(c, b));
  }

  /** Every vector is the sum of its components along an orthonormal triple. */
  lemma BasisExpansion(a: Vec3D, b: Vec3D, c: Vec3D, x: Vec3D)
    requires Orthonormal(a, b, c)
    ensures x.x == DotProduct(a, x) * a.x + DotProduct(b, x) * b.x + DotProduct(c, x) * c.x
    ensures x.y == DotProduct(a, x) * a.y + DotProduct(b, x) * b.y + DotProduct(c, x) * c.y
    ensures x.z == DotProduct(a, x) * a.z + DotProduct(b, x) * b.z + DotProduct(c, x) * c.z
  {
    ResidualZero(a, b, c, x);
  }

  lemma ResidualZero(a: Vec3D, b: Vec3D, c: Vec3D, x: Vec3D)
    requires Orthonormal(a, b, c)
    ensures Residual(a, b, c, x).x == 0.0 && Residual(a, b, c, x).y == 0.0 && Residual(a, b, c, x).z == 0.0
  {
    var r := Residual(a, b, c, x);
    ResidualPerp(a, b, c, x);
    PerpToTriple(a, b, c, r);
    ZeroSize(r);
  }

  lemma ZeroSize(v: Vec3D)
    requires Size2(v) == 0.0
    ensures v.x == 0.0 && v.y == 0.0 && v.z == 0.0
  {
    SquareFacts(v.x, v.x * v.x);
    SquareFacts(v.y, v.y * v.y);
    SquareFacts(v.z, v.z * v.z);
  }

  lemma SquareFacts(x: real, s: real)
    requires s == x * x
    ensures s >= 0.0
    ensures x != 0.0 ==> s > 0.0
  {
    if x > 0.0 {
      MulPositive(x, x, s);
    } else if x < 0.0 {
      MulPositive(-x, -x, s);
    }
  }

  lemma MulPositive(x: real, y: real, p: real)
    requires x > 0.0 && y > 0.0 && p == x * y
    ensures p > 0.0
  {
  }

  /** A 3x3 block whose rows are orthonormal has orthonormal columns. */
  lemma ColumnsOrthonormal(a: Vec3D, b: Vec3D, c: Vec3D)
    requires Orthonormal(a, b, c)
    ensures Orthonormal(Make3D(a.x, b.x, c.x), Make3D(a.y, b.y, c.y), Make3D(a.z, b.z, c.z))
  {
    ColumnX(a, b, c);
    ColumnY(a, b, c);
    ColumnZ(a, b, c);
  }

  lemma ColumnX(a: Vec3D, b: Vec3D, c: Vec3D)
    requires Orthonormal(a, b, c)
    ensures Size2(Make3D(a.x, b.x, c.x)) == 1.0
    ensures DotProduct(Make3D(a.x, b.x, c.x), Make3D(a.y, b.y, c.y)) == 0.0
    ensures DotProduct(Make3D(a.x, b.x, c.x), Make3D(a.z, b.z, c.z)) == 0.0
  {
    ColumnXX(a, b, c);
    ColumnXY(a, b, c);
    ColumnXZ(a, b, c);
  }

  lemma ColumnY(a: Vec3D, b: Vec3D, c: Vec3D)
    requires Orthonormal(a, b, c)
    ensures Size2(Make3D(a.y, b.y, c.y)) == 1.0
    ensures DotProduct(Make3D(a.y, b.y, c.y), Make3D(a.z, b.z, c.z)) == 0.0
  {
    ColumnYY(a, b, c);
    ColumnYZ(a, b, c);
  }

  lemma ColumnZ(a: Vec3D, b: Vec3D, c: Vec3D)
    requires Orthonormal(a, b, c)
    ensures Size2(Make3D(a.z, b.z, c.z)) == 1.0
  {
    ColumnZZ(a, b, c);
  }

  /** Entry (i, j) of the column products: expand the unit vector e_i in
      the basis and read off coordinate j. */
  lemma ColumnXX(a: Vec3D, b: Vec3D, c: Vec3D)
    requires Orthonormal(a, b, c)
    ensures Size2(Make3D(a.x, b.x, c.x)) == 1.0
  {
    var e := Make3D(1.0, 0.0, 0.0);
    ResidualZero(a, b, c, e);
    assert DotProduct(a, e) == a.x && DotProduct(b, e) == b.x && DotProduct(c, e) == c.x;
  }

  lemma ColumnXY(a: Vec3D, b: Vec3D, c: Vec3D)
    requires Orthonormal(a, b, c)
    ensures DotProduct(Make3D(a.x, b.x, c.x), Make3D(a.y, b.y, c.y)) == 0.0
  {
    var e := Make3D(1.0, 0.0, 0.0);
    ResidualZero(a, b, c, e);
    assert DotProduct(a, e) == a.x && DotProduct(b, e) == b.x && DotProduct(c, e) == c.x;
  }

  lemma ColumnXZ(a: Vec3D, b: Vec3D, c: Vec3D)
    requires Orthonormal(a, b, c)
    ensures DotProduct(Make3D(a.x, b.x, c.x), Make3D(a.z, b.z, c.z)) == 0.0
  {
    var e := Make3D(1.0, 0.0, 0.0);
    ResidualZero(a, b, c, e);
    assert DotProduct(a, e) == a.x && DotProduct(b, e) == b.x && DotProduct(c, e) == c.x;
  }

  lemma ColumnYY(a: Vec3D, b: Vec3D, c: Vec3D)
    requires Orthonormal(a, b, c)
    ensures Size2(Make3D(a.y, b.y, c.y)) == 1.0
  {
    var e := Make3D(0.0, 1.0, 0.0);
    ResidualZero(a, b, c, e);
    assert DotProduct(a, e) == a.y && DotProduct(b, e) == b.y && DotProduct(c, e) == c.y;
  }

  lemma ColumnYZ(a: Vec3D, b: Vec3D, c: Vec3D)
    requires Orthonormal(a, b, c)
    ensures DotProduct(Make3D(a.y, b.y, c.y), Make3D(a.z, b.z, c.z)) == 0.0
  {
    var e := Make3D(0.0, 1.0, 0.0);
    ResidualZero(a, b, c, e);
    assert DotProduct(a, e) == a.y && DotProduct(b, e) == b.y && DotProduct(c, e) == c.y;
  }

  lemma ColumnZZ(a: Vec3D, b: Vec3D, c: Vec3D)
    requires Orthonormal(a, b, c)
    ensures Size2(Make3D(a.z, b.z, c.z)) == 1.0
  {
    var e := Make3D(0.0, 0.0, 1.0);
    ResidualZero(a, b, c, e);
    assert DotProduct(a, e) == a.z && DotProduct(b, e) == b.z && DotProduct(c, e) == c.z;
  }

  /** A vector object whose fields `swap` overwrites in place. */
  class Vec3DCell {
    var x: real
    var y: real
    var z: real
    var w: real

    constructor (v: Vec3D)
      ensures Value() == v
    {
      x, y, z, w := v.x, v.y, v.z, v.w;
    }

    function Value(): Vec3D
      reads this
    {
      Vec3D(x, y, z, w)
    }
  }

  /** A texture-coordinate object whose fields `swap2D` overwrites in place. */
  class Vec2DCell {
    var u: real
    var v: real
    var w: real

    constructor (t: Vec2D)
      ensures Value() == t
    {
      u, v, w := t.u, t.v, t.w;
    }

    function Value(): Vec2D
      reads this
    {
      Vec2D(u, v, w)
    }
  }

  /** `swap`: exchanges all four fields of two vector objects, one field at a
      time through a temporary. */
  method Swap(a: Vec3DCell, b: Vec3DCell)
    modifies a, b
    ensures a.Value() == old(b.Value()) && b.Value() == old(a.Value())
  {
    var tmp;
    tmp := a.x; a.x := b.x; b.x := tmp;
    tmp := a.y; a.y := b.y; b.y := tmp;
    tmp := a.z; a.z := b.z; b.z := tmp;
    tmp := a.w; a.w := b.w; b.w := tmp;
  }

  /** `swap2D`: exchanges u, v and w of two texture-coordinate objects. */
  method Swap2D(a: Vec2DCell, b: Vec2DCell)
    modifies a, b
    ensures a.Value() == old(b.Value()) && b.Value() == old(a.Value())
  {
    var tmp;
    tmp := a.u; a.u := b.u; b.u := tmp;
    tmp := a.v; a.v := b.v; b.v := tmp;
    tmp := a.w; a.w := b.w; b.w := tmp;
  }

  /** Swapping twice restores both vectors. */
  method SwapTwiceRestores(a: Vec3DCell, b: Vec3DCell)
    modifies a, b
    ensures a.Value() == old(a.Value()) && b.Value() == old(b.Value())
  {
    Swap(a, b);
    Swap(a, b);
  }

  /** Swapping texture coordinates twice restores both. */
  method Swap2DTwiceRestores(a: Vec2DCell, b: Vec2DCell)
    modifies a, b
    ensures a.Value() == old(a.Value()) && b.Value() == old(b.Value())
  {
    Swap2D(a, b);
    Swap2D(a, b);
  }
}
