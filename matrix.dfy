/** 4x4 matrices in the row-vector convention (src/matrix.ts).

    A point is the row (x, y, z, w) and is transformed by `p * M`; composing
    transforms is multiplying their matrices left to right. Matrices are
    values of four rows here; `MultiplyMatrix` keeps the source's nested loop
    over the cells of a fresh array. */
module Matrices {
  import opened Maths
  import opened Vectors

  datatype Vec4 = Vec4(c0: real, c1: real, c2: real, c3: real)
  {
    function At(j: nat): real
      requires j < 4
    {
      if j == 0 then c0 else if j == 1 then c1 else if j == 2 then c2 else c3
    }

    /** The x, y and z of the row as a vector (with w = 1). */
    function Xyz(): Vec3D {
      Make3D(c0, c1, c2)
    }
  }

  datatype Matrix4 = Matrix4(r0: Vec4, r1: Vec4, r2: Vec4, r3: Vec4)
  {
    function Row(i: nat): Vec4
      requires i < 4
    {
      if i == 0 then r0 else if i == 1 then r1 else if i == 2 then r2 else r3
    }

    function At(i: nat, j: nat): real
      requires i < 4 && j < 4
    {
      Row(i).At(j)
    }
  }

  /** `makeIdentity`. */
  function Identity(): Matrix4 {
    Matrix4(
      Vec4(1.0, 0.0, 0.0, 0.0),
      Vec4(0.0, 1.0, 0.0, 0.0),
      Vec4(0.0, 0.0, 1.0, 0.0),
      Vec4(0.0, 0.0, 0.0, 1.0))
  }

  /** The row vector v times m. */
  function RowTimes(v: Vec4, m: Matrix4): Vec4 {
    Vec4(
      v.c0 * m.r0.c0 + v.c1 * m.r1.c0 + v.c2 * m.r2.c0 + v.c3 * m.r3.c0,
      v.c0 * m.r0.c1 + v.c1 * m.r1.c1 + v.c2 * m.r2.c1 + v.c3 * m.r3.c1,
      v.c0 * m.r0.c2 + v.c1 * m.r1.c2 + v.c2 * m.r2.c2 + v.c3 * m.r3.c2,
      v.c0 * m.r0.c3 + v.c1 * m.r1.c3 + v.c2 * m.r2.c3 + v.c3 * m.r3.c3)
  }

  /** The matrix product a * b, row by row: the specification of `MultiplyMatrix`. */
  function Product(a: Matrix4, b: Matrix4): Matrix4 {
    Matrix4(RowTimes(a.r0, b), RowTimes(a.r1, b), RowTimes(a.r2, b), RowTimes(a.r3, b))
  }

  /** `MultiplyVector`: the point as the row (x, y, z, w) times the matrix,
      keeping the computed w. */
  function MultiplyVector(p: Vec3D, m: Matrix4): Vec3D {
    Vec3D(
      p.x * m.r0.c0 + p.y * m.r1.c0 + p.z * m.r2.c0 + p.w * m.r3.c0,
      p.x * m.r0.c1 + p.y * m.r1.c1 + p.z * m.r2.c1 + p.w * m.r3.c1,
      p.x * m.r0.c2 + p.y * m.r1.c2 + p.z * m.r2.c2 + p.w * m.r3.c2,
      p.x * m.r0.c3 + p.y * m.r1.c3 + p.z * m.r2.c3 + p.w * m.r3.c3)
  }

  function AsRow(p: Vec3D): Vec4 {
    Vec4(p.x, p.y, p.z, p.w)
  }

  /** `MakeRotationX` with c = cos(angle) and s = sin(angle): the identity
      with cells [1][1], [1][2], [2][1] and [2][2] overwritten. */
  function MakeRotationX(c: real, s: real): Matrix4 {
    Matrix4(
      Vec4(1.0, 0.0, 0.0, 0.0),
      Vec4(0.0, c, s, 0.0),
      Vec4(0.0, -s, c, 0.0),
      Vec4(0.0, 0.0, 0.0, 1.0))
  }

  /** `MakeRotationY`: cells [0][0], [0][2], [2][0] and [2][2] overwritten. */
  function MakeRotationY(c: real, s: real): Matrix4 {
    Matrix4(
      Vec4(c, 0.0, s, 0.0),
      Vec4(0.0, 1.0, 0.0, 0.0),
      Vec4(-s, 0.0, c, 0.0),
      Vec4(0.0, 0.0, 0.0, 1.0))
  }

  /** `MakeRotationZ`: cells [0][0], [0][1], [1][0] and [1][1] overwritten. */
  function MakeRotationZ(c: real, s: real): Matrix4 {
    Matrix4(
      Vec4(c, s, 0.0, 0.0),
      Vec4(-s, c, 0.0, 0.0),
      Vec4(0.0, 0.0, 1.0, 0.0),
      Vec4(0.0, 0.0, 0.0, 1.0))
  }

  /** `MakeTranslation`: the identity with row 3 set to (x, y, z, 1). */
  function MakeTranslation(d: Vec3D): Matrix4 {
    Matrix4(
      Vec4(1.0, 0.0, 0.0, 0.0),
      Vec4(0.0, 1.0, 0.0, 0.0),
      Vec4(0.0, 0.0, 1.0, 0.0),
      Vec4(d.x, d.y, d.z, 1.0))
  }

  /** Half the field of view, from degrees to radians. */
  function HalfFovRadians(fovDegrees: real, math: MathLib): real {
    fovDegrees * 0.5 / 180.0 * math.pi
  }

  /** The field of view has a finite projection factor. */
  predicate FovDefined(fovDegrees: real, math: MathLib) {
    math.tan(HalfFovRadians(fovDegrees, math)) != 0.0
  }

  /** The factor `1 / tan(fov / 2)` of `MakeProjection`, the field of view
      given in degrees. */
  function FovFactor(fovDegrees: real, math: MathLib): real
    requires FovDefined(fovDegrees, math)
  {
    1.0 / math.tan(HalfFovRadians(fovDegrees, math))
  }

  /** `MakeProjection` with the field-of-view factor already computed. The
      source divides by far - near unchecked; the model requires them apart. */
  function MakeProjection(fovFactor: real, aspectRatio: real, near: real, far: real): Matrix4
    requires far != near
  {
    Matrix4(
      Vec4(aspectRatio * fovFactor, 0.0, 0.0, 0.0),
      Vec4(0.0, fovFactor, 0.0, 0.0),
      Vec4(0.0, 0.0, far / (far - near), 1.0),
      Vec4(0.0, 0.0, (-far * near) / (far - near), 0.0))
  }

  /** A rotation-plus-translation matrix: the top-left 3x3 block has
      orthonormal rows, column 3 is (0, 0, 0, 1). Row 3 is the translation. */
  predicate Rigid(m: Matrix4) {
    && Orthonormal(m.r0.Xyz(), m.r1.Xyz(), m.r2.Xyz())
    && m.r0.c3 == 0.0 && m.r1.c3 == 0.0 && m.r2.c3 == 0.0 && m.r3.c3 == 1.0
  }

  /** `QuickInverse`: transposes the 3x3 block and moves the translation
      T to (-T.A, -T.B, -T.C), where A, B and C are the first three rows. */
  function QuickInverse(m: Matrix4): Matrix4 {
    var a := Vec3D(m.r0.c0, m.r0.c1, m.r0.c2, m.r0.c3);
    var b := Vec3D(m.r1.c0, m.r1.c1, m.r1.c2, m.r1.c3);
    var c := Vec3D(m.r2.c0, m.r2.c1, m.r2.c2, m.r2.c3);
    var t := Vec3D(m.r3.c0, m.r3.c1, m.r3.c2, m.r3.c3);
    Matrix4(
      Vec4(a.x, b.x, c.x, 0.0),
      Vec4(a.y, b.y, c.y, 0.0),
      Vec4(a.z, b.z, c.z, 0.0),
      Vec4(-DotProduct(t, a), -DotProduct(t, b), -DotProduct(t, c), 1.0))
  }

  /** The forward axis of `PointAt`: the unit vector from pos to target. */
  function Forward(pos: Vec3D, target: Vec3D, math: MathLib): Vec3D
    requires math.Valid() && Size2(Subtract(target, pos)) > 0.0
  {
    Normalize(Subtract(target, pos), math)
  }

  /** `_up` minus its component along the forward axis, before normalising. */
  function UpResidue(pos: Vec3D, target: Vec3D, up: Vec3D, math: MathLib): Vec3D
    requires math.Valid() && Size2(Subtract(target, pos)) > 0.0
  {
    var forward := Forward(pos, target, math);
    Subtract(up, MultiplyConst(forward, DotProduct(up, forward)))
  }

  /** Where `PointAt` is defined over the reals: the target differs from the
      position and `_up` is not parallel to the viewing direction (the source
      produces NaN otherwise). */
  ghost predicate CanPointAt(pos: Vec3D, target: Vec3D, up: Vec3D, math: MathLib) {
    && math.Valid()
    && Size2(Subtract(target, pos)) > 0.0
    && Size2(UpResidue(pos, target, up, math)) > 0.0
  }

  /** `PointAt`: rows right, up, forward and the position. */
  function PointAt(pos: Vec3D, target: Vec3D, up: Vec3D, math: MathLib): Matrix4
    requires CanPointAt(pos, target, up, math)
  {
    var forward := Forward(pos, target, math);
    var newUp := Normalize(UpResidue(pos, target, up, math), math);
    var right := CrossProduct(forward, newUp);
    Matrix4(
      Vec4(right.x, right.y, right.z, 0.0),
      Vec4(newUp.x, newUp.y, newUp.z, 0.0),
      Vec4(forward.x, forward.y, forward.z, 0.0),
      Vec4(pos.x, pos.y, pos.z, 1.0))
  }

  // The cells of a 4x4 array, read back as a matrix.

  function FromCells(a: array2<real>): Matrix4
    reads a
    requires a.Length0 == 4 && a.Length1 == 4
  {
    Matrix4(
      Vec4(a[0, 0], a[0, 1], a[0, 2], a[0, 3]),
      Vec4(a[1, 0], a[1, 1], a[1, 2], a[1, 3]),
      Vec4(a[2, 0], a[2, 1], a[2, 2], a[2, 3]),
      Vec4(a[3, 0], a[3, 1], a[3, 2], a[3, 3]))
  }

  /** `makeIdentity` as the fresh array that `MultiplyMatrix` overwrites. */
  method IdentityCells() returns (a: array2<real>)
    ensures fresh(a) && a.Length0 == 4 && a.Length1 == 4
    ensures FromCells(a) == Identity()
  {
    a := new real[4, 4]((i, j) => if i == j then 1.0 else 0.0);
  }

  /** `MultiplyMatrix`: fills the cells column by column, row by row, each
      with the dot product of a row of m1 and a column of m2. */
  method MultiplyMatrix(m1: Matrix4, m2: Matrix4) returns (m: Matrix4)
    ensures m == Product(m1, m2)
  {
    var cells := IdentityCells();
    for c := 0 to 4
      invariant forall i, j :: 0 <= i < 4 && 0 <= j < c ==> cells[i, j] == Product(m1, m2).At(i, j)
    {
      for r := 0 to 4
        invariant forall i, j :: 0 <= i < 4 && 0 <= j < c ==> cells[i, j] == Product(m1, m2).At(i, j)
        invariant forall i :: 0 <= i < r ==> cells[i, c] == Product(m1, m2).At(i, c)
      {
        ProductAt(m1, m2, r, c);
        cells[r, c] :=
          m1.At(r, 0) * m2.At(0, c) +
          m1.At(r, 1) * m2.At(1, c) +
          m1.At(r, 2) * m2.At(2, c) +
          m1.At(r, 3) * m2.At(3, c);
      }
    }
    m := FromCells(cells);
    CellsEqual(cells, Product(m1, m2));
  }

  /** Cell (r, c) of a product is row r of a dotted with column c of b. */
  lemma ProductAt(a: Matrix4, b: Matrix4, r: nat, c: nat)
    requires r < 4 && c < 4
    ensures Product(a, b).At(r, c)
         == a.At(r, 0) * b.At(0, c) + a.At(r, 1) * b.At(1, c) + a.At(r, 2) * b.At(2, c) + a.At(r, 3) * b.At(3, c)
  {
    var row := a.Row(r);
    assert Product(a, b).Row(r) == RowTimes(row, b);
    assert a.At(r, 0) == row.c0 && a.At(r, 1) == row.c1 && a.At(r, 2) == row.c2 && a.At(r, 3) == row.c3;
    RowTimesAt(row, b, c);
  }

  lemma RowTimesAt(v: Vec4, m: Matrix4, c: nat)
    requires c < 4
    ensures RowTimes(v, m).At(c) == v.c0 * m.At(0, c) + v.c1 * m.At(1, c) + v.c2 * m.At(2, c) + v.c3 * m.At(3, c)
  {
    if c == 0 {
      assert m.At(0, c) == m.r0.c0 && m.At(1, c) == m.r1.c0 && m.At(2, c) == m.r2.c0 && m.At(3, c) == m.r3.c0;
    } else if c == 1 {
      assert m.At(0, c) == m.r0.c1 && m.At(1, c) == m.r1.c1 && m.At(2, c) == m.r2.c1 && m.At(3, c) == m.r3.c1;
    } else if c == 2 {
      assert m.At(0, c) == m.r0.c2 && m.At(1, c) == m.r1.c2 && m.At(2, c) == m.r2.c2 && m.At(3, c) == m.r3.c2;
    } else {
      assert m.At(0, c) == m.r0.c3 && m.At(1, c) == m.r1.c3 && m.At(2, c) == m.r2.c3 && m.At(3, c) == m.r3.c3;
    }
  }

  lemma CellsEqual(a: array2<real>, m: Matrix4)
    requires a.Length0 == 4 && a.Length1 == 4
    requires forall i, j :: 0 <= i < 4 && 0 <= j < 4 ==> a[i, j] == m.At(i, j)
    ensures FromCells(a) == m
  {
    assert a[0, 0] == m.At(0, 0) && a[0, 1] == m.At(0, 1) && a[0, 2] == m.At(0, 2) && a[0, 3] == m.At(0, 3);
    assert a[1, 0] == m.At(1, 0) && a[1, 1] == m.At(1, 1) && a[1, 2] == m.At(1, 2) && a[1, 3] == m.At(1, 3);
    assert a[2, 0] == m.At(2, 0) && a[2, 1] == m.At(2, 1) && a[2, 2] == m.At(2, 2) && a[2, 3] == m.At(2, 3);
    assert a[3, 0] == m.At(3, 0) && a[3, 1] == m.At(3, 1) && a[3, 2] == m.At(3, 2) && a[3, 3] == m.At(3, 3);
  }

  // Algebraic laws.

  /** The identity leaves every point unchanged, w included. */
  lemma MultiplyVectorIdentity(p: Vec3D)
    ensures MultiplyVector(p, Identity()) == p
  {
  }

  /** The identity is neutral on both sides of the product. */
  lemma ProductIdentity(m: Matrix4)
    ensures Product(Identity(), m) == m
    ensures Product(m, Identity()) == m
  {
  }

  /** Transforming by a and then by b is transforming by the product a * b. */
  lemma MultiplyVectorProduct(p: Vec3D, a: Matrix4, b: Matrix4)
    ensures MultiplyVector(MultiplyVector(p, a), b) == MultiplyVector(p, Product(a, b))
  {
    ComposedX(p, a, b);
    ComposedY(p, a, b);
    ComposedZ(p, a, b);
    ComposedW(p, a, b);
  }

  lemma ComposedX(p: Vec3D, a: Matrix4, b: Matrix4)
    ensures MultiplyVector(MultiplyVector(p, a), b).x == MultiplyVector(p, Product(a, b)).x
  {
    TwiceMultipliedX(p, a, b);
    ReassociateDot(p.x, p.y, p.z, p.w,
      a.r0.c0, a.r0.c1, a.r0.c2, a.r0.c3, a.r1.c0, a.r1.c1, a.r1.c2, a.r1.c3,
      a.r2.c0, a.r2.c1, a.r2.c2, a.r2.c3, a.r3.c0, a.r3.c1, a.r3.c2, a.r3.c3,
      b.r0.c0, b.r1.c0, b.r2.c0, b.r3.c0);
    ProductMultipliedX(p, a, b);
  }

  lemma TwiceMultipliedX(p: Vec3D, a: Matrix4, b: Matrix4)
    ensures MultiplyVector(MultiplyVector(p, a), b).x
      == (p.x * a.r0.c0 + p.y * a.r1.c0 + p.z * a.r2.c0 + p.w * a.r3.c0) * b.r0.c0
      + (p.x * a.r0.c1 + p.y * a.r1.c1 + p.z * a.r2.c1 + p.w * a.r3.c1) * b.r1.c0
      + (p.x * a.r0.c2 + p.y * a.r1.c2 + p.z * a.r2.c2 + p.w * a.r3.c2) * b.r2.c0
      + (p.x * a.r0.c3 + p.y * a.r1.c3 + p.z * a.r2.c3 + p.w * a.r3.c3) * b.r3.c0
  {
    var u := MultiplyVector(p, a);
    ExpandLeft(u.x, u.y, u.z, u.w, p.x, p.y, p.z, p.w,
      a.r0.c0, a.r0.c1, a.r0.c2, a.r0.c3, a.r1.c0, a.r1.c1, a.r1.c2, a.r1.c3,
      a.r2.c0, a.r2.c1, a.r2.c2, a.r2.c3, a.r3.c0, a.r3.c1, a.r3.c2, a.r3.c3,
      b.r0.c0, b.r1.c0, b.r2.c0, b.r3.c0);
    assert MultiplyVector(u, b).x == u.x * b.r0.c0 + u.y * b.r1.c0 + u.z * b.r2.c0 + u.w * b.r3.c0;
  }

  lemma ProductMultipliedX(p: Vec3D, a: Matrix4, b: Matrix4)
    ensures MultiplyVector(p, Product(a, b)).x
      == p.x * (a.r0.c0 * b.r0.c0 + a.r0.c1 * b.r1.c0 + a.r0.c2 * b.r2.c0 + a.r0.c3 * b.r3.c0)
      + p.y * (a.r1.c0 * b.r0.c0 + a.r1.c1 * b.r1.c0 + a.r1.c2 * b.r2.c0 + a.r1.c3 * b.r3.c0)
      + p.z * (a.r2.c0 * b.r0.c0 + a.r2.c1 * b.r1.c0 + a.r2.c2 * b.r2.c0 + a.r2.c3 * b.r3.c0)
      + p.w * (a.r3.c0 * b.r0.c0 + a.r3.c1 * b.r1.c0 + a.r3.c2 * b.r2.c0 + a.r3.c3 * b.r3.c0)
  {
    var ab := Product(a, b);
    ExpandRight(ab.r0.c0, ab.r1.c0, ab.r2.c0, ab.r3.c0, p.x, p.y, p.z, p.w,
      a.r0.c0, a.r0.c1, a.r0.c2, a.r0.c3, a.r1.c0, a.r1.c1, a.r1.c2, a.r1.c3,
      a.r2.c0, a.r2.c1, a.r2.c2, a.r2.c3, a.r3.c0, a.r3.c1, a.r3.c2, a.r3.c3,
      b.r0.c0, b.r1.c0, b.r2.c0, b.r3.c0);
  }

  lemma ComposedY(p: Vec3D, a: Matrix4, b: Matrix4)
    ensures MultiplyVector(MultiplyVector(p, a), b).y == MultiplyVector(p, Product(a, b)).y
  {
    TwiceMultipliedY(p, a, b);
    ReassociateDot(p.x, p.y, p.z, p.w,
      a.r0.c0, a.r0.c1, a.r0.c2, a.r0.c3, a.r1.c0, a.r1.c1, a.r1.c2, a.r1.c3,
      a.r2.c0, a.r2.c1, a.r2.c2, a.r2.c3, a.r3.c0, a.r3.c1, a.r3.c2, a.r3.c3,
      b.r0.c1, b.r1.c1, b.r2.c1, b.r3.c1);
    ProductMultipliedY(p, a, b);
  }

  lemma TwiceMultipliedY(p: Vec3D, a: Matrix4, b: Matrix4)
    ensures MultiplyVector(MultiplyVector(p, a), b).y
      == (p.x * a.r0.c0 + p.y * a.r1.c0 + p.z * a.r2.c0 + p.w * a.r3.c0) * b.r0.c1
      + (p.x * a.r0.c1 + p.y * a.r1.c1 + p.z * a.r2.c1 + p.w * a.r3.c1) * b.r1.c1
      + (p.x * a.r0.c2 + p.y * a.r1.c2 + p.z * a.r2.c2 + p.w * a.r3.c2) * b.r2.c1
      + (p.x * a.r0.c3 + p.y * a.r1.c3 + p.z * a.r2.c3 + p.w * a.r3.c3) * b.r3.c1
  {
    var u := MultiplyVector(p, a);
    ExpandLeft(u.x, u.y, u.z, u.w, p.x, p.y, p.z, p.w,
      a.r0.c0, a.r0.c1, a.r0.c2, a.r0.c3, a.r1.c0, a.r1.c1, a.r1.c2, a.r1.c3,
      a.r2.c0, a.r2.c1, a.r2.c2, a.r2.c3, a.r3.c0, a.r3.c1, a.r3.c2, a.r3.c3,
      b.r0.c1, b.r1.c1, b.r2.c1, b.r3.c1);
    assert MultiplyVector(u, b).y == u.x * b.r0.c1 + u.y * b.r1.c1 + u.z * b.r2.c1 + u.w * b.r3.c1;
  }

  lemma ProductMultipliedY(p: Vec3D, a: Matrix4, b: Matrix4)
    ensures MultiplyVector(p, Product(a, b)).y
      == p.x * (a.r0.c0 * b.r0.c1 + a.r0.c1 * b.r1.c1 + a.r0.c2 * b.r2.c1 + a.r0.c3 * b.r3.c1)
      + p.y * (a.r1.c0 * b.r0.c1 + a.r1.c1 * b.r1.c1 + a.r1.c2 * b.r2.c1 + a.r1.c3 * b.r3.c1)
      + p.z * (a.r2.c0 * b.r0.c1 + a.r2.c1 * b.r1.c1 + a.r2.c2 * b.r2.c1 + a.r2.c3 * b.r3.c1)
      + p.w * (a.r3.c0 * b.r0.c1 + a.r3.c1 * b.r1.c1 + a.r3.c2 * b.r2.c1 + a.r3.c3 * b.r3.c1)
  {
    var ab := Product(a, b);
    ExpandRight(ab.r0.c1, ab.r1.c1, ab.r2.c1, ab.r3.c1, p.x, p.y, p.z, p.w,
      a.r0.c0, a.r0.c1, a.r0.c2, a.r0.c3, a.r1.c0, a.r1.c1, a.r1.c2, a.r1.c3,
      a.r2.c0, a.r2.c1, a.r2.c2, a.r2.c3, a.r3.c0, a.r3.c1, a.r3.c2, a.r3.c3,
      b.r0.c1, b.r1.c1, b.r2.c1, b.r3.c1);
  }

  lemma ComposedZ(p: Vec3D, a: Matrix4, b: Matrix4)
    ensures MultiplyVector(MultiplyVector(p, a), b).z == MultiplyVector(p, Product(a, b)).z
  {
    TwiceMultipliedZ(p, a, b);
    ReassociateDot(p.x, p.y, p.z, p.w,
      a.r0.c0, a.r0.c1, a.r0.c2, a.r0.c3, a.r1.c0, a.r1.c1, a.r1.c2, a.r1.c3,
      a.r2.c0, a.r2.c1, a.r2.c2, a.r2.c3, a.r3.c0, a.r3.c1, a.r3.c2, a.r3.c3,
      b.r0.c2, b.r1.c2, b.r2.c2, b.r3.c2);
    ProductMultipliedZ(p, a, b);
  }

  lemma TwiceMultipliedZ(p: Vec3D, a: Matrix4, b: Matrix4)
    ensures MultiplyVector(MultiplyVector(p, a), b).z
      == (p.x * a.r0.c0 + p.y * a.r1.c0 + p.z * a.r2.c0 + p.w * a.r3.c0) * b.r0.c2
      + (p.x * a.r0.c1 + p.y * a.r1.c1 + p.z * a.r2.c1 + p.w * a.r3.c1) * b.r1.c2
      + (p.x * a.r0.c2 + p.y * a.r1.c2 + p.z * a.r2.c2 + p.w * a.r3.c2) * b.r2.c2
      + (p.x * a.r0.c3 + p.y * a.r1.c3 + p.z * a.r2.c3 + p.w * a.r3.c3) * b.r3.c2
  {
    var u := MultiplyVector(p, a);
    ExpandLeft(u.x, u.y, u.z, u.w, p.x, p.y, p.z, p.w,
      a.r0.c0, a.r0.c1, a.r0.c2, a.r0.c3, a.r1.c0, a.r1.c1, a.r1.c2, a.r1.c3,
      a.r2.c0, a.r2.c1, a.r2.c2, a.r2.c3, a.r3.c0, a.r3.c1, a.r3.c2, a.r3.c3,
      b.r0.c2, b.r1.c2, b.r2.c2, b.r3.c2);
    assert MultiplyVector(u, b).z == u.x * b.r0.c2 + u.y * b.r1.c2 + u.z * b.r2.c2 + u.w * b.r3.c2;
  }

  lemma ProductMultipliedZ(p: Vec3D, a: Matrix4, b: Matrix4)
    ensures MultiplyVector(p, Product(a, b)).z
      == p.x * (a.r0.c0 * b.r0.c2 + a.r0.c1 * b.r1.c2 + a.r0.c2 * b.r2.c2 + a.r0.c3 * b.r3.c2)
      + p.y * (a.r1.c0 * b.r0.c2 + a.r1.c1 * b.r1.c2 + a.r1.c2 * b.r2.c2 + a.r1.c3 * b.r3.c2)
      + p.z * (a.r2.c0 * b.r0.c2 + a.r2.c1 * b.r1.c2 + a.r2.c2 * b.r2.c2 + a.r2.c3 * b.r3.c2)
      + p.w * (a.r3.c0 * b.r0.c2 + a.r3.c1 * b.r1.c2 + a.r3.c2 * b.r2.c2 + a.r3.c3 * b.r3.c2)
  {
    var ab := Product(a, b);
    ExpandRight(ab.r0.c2, ab.r1.c2, ab.r2.c2, ab.r3.c2, p.x, p.y, p.z, p.w,
      a.r0.c0, a.r0.c1, a.r0.c2, a.r0.c3, a.r1.c0, a.r1.c1, a.r1.c2, a.r1.c3,
      a.r2.c0, a.r2.c1, a.r2.c2, a.r2.c3, a.r3.c0, a.r3.c1, a.r3.c2, a.r3.c3,
      b.r0.c2, b.r1.c2, b.r2.c2, b.r3.c2);
  }

  lemma ComposedW(p: Vec3D, a: Matrix4, b: Matrix4)
    ensures MultiplyVector(MultiplyVector(p, a), b).w == MultiplyVector(p, Product(a, b)).w
  {
    TwiceMultipliedW(p, a, b);
    ReassociateDot(p.x, p.y, p.z, p.w,
      a.r0.c0, a.r0.c1, a.r0.c2, a.r0.c3, a.r1.c0, a.r1.c1, a.r1.c2, a.r1.c3,
      a.r2.c0, a.r2.c1, a.r2.c2, a.r2.c3, a.r3.c0, a.r3.c1, a.r3.c2, a.r3.c3,
      b.r0.c3, b.r1.c3, b.r2.c3, b.r3.c3);
    ProductMultipliedW(p, a, b);
  }

  lemma TwiceMultipliedW(p: Vec3D, a: Matrix4, b: Matrix4)
    ensures MultiplyVector(MultiplyVector(p, a), b).w
      == (p.x * a.r0.c0 + p.y * a.r1.c0 + p.z * a.r2.c0 + p.w * a.r3.c0) * b.r0.c3
      + (p.x * a.r0.c1 + p.y * a.r1.c1 + p.z * a.r2.c1 + p.w * a.r3.c1) * b.r1.c3
      + (p.x * a.r0.c2 + p.y * a.r1.c2 + p.z * a.r2.c2 + p.w * a.r3.c2) * b.r2.c3
      + (p.x * a.r0.c3 + p.y * a.r1.c3 + p.z * a.r2.c3 + p.w * a.r3.c3) * b.r3.c3
  {
    var u := MultiplyVector(p, a);
    ExpandLeft(u.x, u.y, u.z, u.w, p.x, p.y, p.z, p.w,
      a.r0.c0, a.r0.c1, a.r0.c2, a.r0.c3, a.r1.c0, a.r1.c1, a.r1.c2, a.r1.c3,
      a.r2.c0, a.r2.c1, a.r2.c2, a.r2.c3, a.r3.c0, a.r3.c1, a.r3.c2, a.r3.c3,
      b.r0.c3, b.r1.c3, b.r2.c3, b.r3.c3);
    assert MultiplyVector(u, b).w == u.x * b.r0.c3 + u.y * b.r1.c3 + u.z * b.r2.c3 + u.w * b.r3.c3;
  }

  lemma ProductMultipliedW(p: Vec3D, a: Matrix4, b: Matrix4)
    ensures MultiplyVector(p, Product(a, b)).w
      == p.x * (a.r0.c0 * b.r0.c3 + a.r0.c1 * b.r1.c3 + a.r0.c2 * b.r2.c3 + a.r0.c3 * b.r3.c3)
      + p.y * (a.r1.c0 * b.r0.c3 + a.r1.c1 * b.r1.c3 + a.r1.c2 * b.r2.c3 + a.r1.c3 * b.r3.c3)
      + p.z * (a.r2.c0 * b.r0.c3 + a.r2.c1 * b.r1.c3 + a.r2.c2 * b.r2.c3 + a.r2.c3 * b.r3.c3)
      + p.w * (a.r3.c0 * b.r0.c3 + a.r3.c1 * b.r1.c3 + a.r3.c2 * b.r2.c3 + a.r3.c3 * b.r3.c3)
  {
    var ab := Product(a, b);
    ExpandRight(ab.r0.c3, ab.r1.c3, ab.r2.c3, ab.r3.c3, p.x, p.y, p.z, p.w,
      a.r0.c0, a.r0.c1, a.r0.c2, a.r0.c3, a.r1.c0, a.r1.c1, a.r1.c2, a.r1.c3,
      a.r2.c0, a.r2.c1, a.r2.c2, a.r2.c3, a.r3.c0, a.r3.c1, a.r3.c2, a.r3.c3,
      b.r0.c3, b.r1.c3, b.r2.c3, b.r3.c3);
  }

  /** (v * A) . b == v . (A * b) for a 4-vector v, a 4x4 block A and a
      column b, written out term by term. */
  lemma ReassociateDot(
    v0: real, v1: real, v2: real, v3: real,
    a00: real, a01: real, a02: real, a03: real,
    a10: real, a11: real, a12: real, a13: real,
    a20: real, a21: real, a22: real, a23: real,
    a30: real, a31: real, a32: real, a33: real,
    b0: real, b1: real, b2: real, b3: real)
    ensures (v0 * a00 + v1 * a10 + v2 * a20 + v3 * a30) * b0
          + (v0 * a01 + v1 * a11 + v2 * a21 + v3 * a31) * b1
          + (v0 * a02 + v1 * a12 + v2 * a22 + v3 * a32) * b2
          + (v0 * a03 + v1 * a13 + v2 * a23 + v3 * a33) * b3
         == v0 * (a00 * b0 + a01 * b1 + a02 * b2 + a03 * b3)
          + v1 * (a10 * b0 + a11 * b1 + a12 * b2 + a13 * b3)
          + v2 * (a20 * b0 + a21 * b1 + a22 * b2 + a23 * b3)
          + v3 * (a30 * b0 + a31 * b1 + a32 * b2 + a33 * b3)
  {
  }

  /** The left side of `ReassociateDot` with the entries of u = v * A named. */
  lemma ExpandLeft(
    u0: real, u1: real, u2: real, u3: real,
    v0: real, v1: real, v2: real, v3: real,
    a00: real, a01: real, a02: real, a03: real,
    a10: real, a11: real, a12: real, a13: real,
    a20: real, a21: real, a22: real, a23: real,
    a30: real, a31: real, a32: real, a33: real,
    b0: real, b1: real, b2: real, b3: real)
    requires u0 == v0 * a00 + v1 * a10 + v2 * a20 + v3 * a30
    requires u1 == v0 * a01 + v1 * a11 + v2 * a21 + v3 * a31
    requires u2 == v0 * a02 + v1 * a12 + v2 * a22 + v3 * a32
    requires u3 == v0 * a03 + v1 * a13 + v2 * a23 + v3 * a33
    ensures u0 * b0 + u1 * b1 + u2 * b2 + u3 * b3
         == (v0 * a00 + v1 * a10 + v2 * a20 + v3 * a30) * b0
          + (v0 * a01 + v1 * a11 + v2 * a21 + v3 * a31) * b1
          + (v0 * a02 + v1 * a12 + v2 * a22 + v3 * a32) * b2
          + (v0 * a03 + v1 * a13 + v2 * a23 + v3 * a33) * b3
  {
  }

  /** The right side of `ReassociateDot` with the entries of w = A * b named. */
  lemma ExpandRight(
    w0: real, w1: real, w2: real, w3: real,
    v0: real, v1: real, v2: real, v3: real,
    a00: real, a01: real, a02: real, a03: real,
    a10: real, a11: real, a12: real, a13: real,
    a20: real, a21: real, a22: real, a23: real,
    a30: real, a31: real, a32: real, a33: real,
    b0: real, b1: real, b2: real, b3: real)
    requires w0 == a00 * b0 + a01 * b1 + a02 * b2 + a03 * b3
    requires w1 == a10 * b0 + a11 * b1 + a12 * b2 + a13 * b3
    requires w2 == a20 * b0 + a21 * b1 + a22 * b2 + a23 * b3
    requires w3 == a30 * b0 + a31 * b1 + a32 * b2 + a33 * b3
    ensures v0 * w0 + v1 * w1 + v2 * w2 + v3 * w3
         == v0 * (a00 * b0 + a01 * b1 + a02 * b2 + a03 * b3)
          + v1 * (a10 * b0 + a11 * b1 + a12 * b2 + a13 * b3)
          + v2 * (a20 * b0 + a21 * b1 + a22 * b2 + a23 * b3)
          + v3 * (a30 * b0 + a31 * b1 + a32 * b2 + a33 * b3)
  {
  }

  /** A point (w = 1) moved by a translation matrix is the point plus the
      offset, and stays a point. */
  lemma TranslationMovesPoint(p: Vec3D, d: Vec3D)
    requires p.w == 1.0
    ensures MultiplyVector(p, MakeTranslation(d)) == Add(p, d)
  {
  }

  /** The projection's w output is the input's z: column 3 is (0, 0, 1, 0). */
  lemma ProjectionDepth(p: Vec3D, fovFactor: real, aspectRatio: real, near: real, far: real)
    requires far != near
    ensures MultiplyVector(p, MakeProjection(fovFactor, aspectRatio, near, far)).w == p.z
    ensures MultiplyVector(p, MakeProjection(fovFactor, aspectRatio, near, far)).x == p.x * aspectRatio * fovFactor
    ensures MultiplyVector(p, MakeProjection(fovFactor, aspectRatio, near, far)).y == p.y * fovFactor
  {
  }
  // Rotations.

  /** With c = cos and s = sin of one angle, each rotation matrix is rigid:
      orthonormal rows, no translation. */
  lemma RotationsRigid(c: real, s: real)
    requires c * c + s * s == 1.0
    ensures Rigid(MakeRotationX(c, s)) && Rigid(MakeRotationY(c, s)) && Rigid(MakeRotationZ(c, s))
  {
    RotationXRigid(c, s);
    RotationYRigid(c, s);
    RotationZRigid(c, s);
  }

  lemma RotationXRigid(c: real, s: real)
    requires c * c + s * s == 1.0
    ensures Rigid(MakeRotationX(c, s))
  {
    var m := MakeRotationX(c, s);
    assert m.r0.Xyz() == Make3D(1.0, 0.0, 0.0) && m.r1.Xyz() == Make3D(0.0, c, s) && m.r2.Xyz() == Make3D(0.0, -s, c);
    assert Orthonormal(Make3D(1.0, 0.0, 0.0), Make3D(0.0, c, s), Make3D(0.0, -s, c)) by {
      UnitRows(c, s);
    }
  }

  lemma RotationYRigid(c: real, s: real)
    requires c * c + s * s == 1.0
    ensures Rigid(MakeRotationY(c, s))
  {
    var m := MakeRotationY(c, s);
    assert m.r0.Xyz() == Make3D(c, 0.0, s) && m.r1.Xyz() == Make3D(0.0, 1.0, 0.0) && m.r2.Xyz() == Make3D(-s, 0.0, c);
    assert Orthonormal(Make3D(c, 0.0, s), Make3D(0.0, 1.0, 0.0), Make3D(-s, 0.0, c)) by {
      UnitRows(c, s);
    }
  }

  lemma RotationZRigid(c: real, s: real)
    requires c * c + s * s == 1.0
    ensures Rigid(MakeRotationZ(c, s))
  {
    var m := MakeRotationZ(c, s);
    assert m.r0.Xyz() == Make3D(c, s, 0.0) && m.r1.Xyz() == Make3D(-s, c, 0.0) && m.r2.Xyz() == Make3D(0.0, 0.0, 1.0);
    assert Orthonormal(Make3D(c, s, 0.0), Make3D(-s, c, 0.0), Make3D(0.0, 0.0, 1.0)) by {
      UnitRows(c, s);
    }
  }

  /** The rows (c, s) and (-s, c) of a plane rotation, placed in 3D. */
  lemma UnitRows(c: real, s: real)
    requires c * c + s * s == 1.0
    ensures Size2(Make3D(0.0, c, s)) == 1.0 && Size2(Make3D(0.0, -s, c)) == 1.0
    ensures Size2(Make3D(c, 0.0, s)) == 1.0 && Size2(Make3D(-s, 0.0, c)) == 1.0
    ensures Size2(Make3D(c, s, 0.0)) == 1.0 && Size2(Make3D(-s, c, 0.0)) == 1.0
    ensures DotProduct(Make3D(0.0, c, s), Make3D(0.0, -s, c)) == 0.0
    ensures DotProduct(Make3D(c, 0.0, s), Make3D(-s, 0.0, c)) == 0.0
    ensures DotProduct(Make3D(c, s, 0.0), Make3D(-s, c, 0.0)) == 0.0
    ensures Orthonormal(Make3D(1.0, 0.0, 0.0), Make3D(0.0, c, s), Make3D(0.0, -s, c))
    ensures Orthonormal(Make3D(c, 0.0, s), Make3D(0.0, 1.0, 0.0), Make3D(-s, 0.0, c))
    ensures Orthonormal(Make3D(c, s, 0.0), Make3D(-s, c, 0.0), Make3D(0.0, 0.0, 1.0))
  {
    assert (-s) * (-s) == s * s;
  }

  /** A rotation about an axis keeps that coordinate and w, and keeps the
      squared distance from the origin. */
  lemma RotationXKeepsAxis(p: Vec3D, c: real, s: real)
    requires c * c + s * s == 1.0
    ensures MultiplyVector(p, MakeRotationX(c, s)).x == p.x
    ensures MultiplyVector(p, MakeRotationX(c, s)).w == p.w
    ensures Size2(MultiplyVector(p, MakeRotationX(c, s))) == Size2(p)
  {
    PlaneRotation(p.y, p.z, c, s);
  }

  lemma RotationYKeepsAxis(p: Vec3D, c: real, s: real)
    requires c * c + s * s == 1.0
    ensures MultiplyVector(p, MakeRotationY(c, s)).y == p.y
    ensures MultiplyVector(p, MakeRotationY(c, s)).w == p.w
    ensures Size2(MultiplyVector(p, MakeRotationY(c, s))) == Size2(p)
  {
    PlaneRotation(p.x, -p.z, c, s);
  }

  lemma RotationZKeepsAxis(p: Vec3D, c: real, s: real)
    requires c * c + s * s == 1.0
    ensures MultiplyVector(p, MakeRotationZ(c, s)).z == p.z
    ensures MultiplyVector(p, MakeRotationZ(c, s)).w == p.w
    ensures Size2(MultiplyVector(p, MakeRotationZ(c, s))) == Size2(p)
  {
    PlaneRotation(p.x, p.y, c, s);
  }

  /** Rotating (a, b) in its plane keeps a^2 + b^2. */
  lemma PlaneRotation(a: real, b: real, c: real, s: real)
    requires c * c + s * s == 1.0
    ensures (a * c - b * s) * (a * c - b * s) + (a * s + b * c) * (a * s + b * c) == a * a + b * b
  {
    assert (a * c - b * s) * (a * c - b * s) + (a * s + b * c) * (a * s + b * c)
        == (a * a + b * b) * (c * c + s * s);
  }
  // QuickInverse is the inverse of a rigid matrix.

  /** For a rigid matrix, `QuickInverse` undoes it from either side. */
  lemma QuickInverseIsInverse(m: Matrix4)
    requires Rigid(m)
    ensures Product(m, QuickInverse(m)) == Identity()
    ensures Product(QuickInverse(m), m) == Identity()
  {
    QuickInverseRight(m);
    QuickInverseLeft(m);
  }

  lemma QuickInverseRight(m: Matrix4)
    requires Rigid(m)
    ensures Product(m, QuickInverse(m)) == Identity()
  {
    var a, b, c, t := m.r0.Xyz(), m.r1.Xyz(), m.r2.Xyz(), m.r3.Xyz();
    QuickInverseRow(m.r0, m);
    QuickInverseRow(m.r1, m);
    QuickInverseRow(m.r2, m);
    QuickInverseRow(m.r3, m);
    assert m.r0 == Vec4(a.x, a.y, a.z, 0.0) && m.r1 == Vec4(b.x, b.y, b.z, 0.0) && m.r2 == Vec4(c.x, c.y, c.z, 0.0);
    assert m.r3 == Vec4(t.x, t.y, t.z, 1.0);
    assert DotProduct(b, a) == 0.0 && DotProduct(c, a) == 0.0 && DotProduct(c, b) == 0.0;
  }

  lemma QuickInverseLeft(m: Matrix4)
    requires Rigid(m)
    ensures Product(QuickInverse(m), m) == Identity()
  {
    var q := QuickInverse(m);
    TransposedRows(m);
    TranslationRow(m);
    assert Product(q, m) == Matrix4(RowTimes(q.r0, m), RowTimes(q.r1, m), RowTimes(q.r2, m), RowTimes(q.r3, m));
  }

  /** The transposed block's rows times m: the unit rows of the identity. */
  lemma TransposedRows(m: Matrix4)
    requires Rigid(m)
    ensures RowTimes(QuickInverse(m).r0, m).c0 == 1.0
    ensures RowTimes(QuickInverse(m).r0, m).c1 == 0.0
    ensures RowTimes(QuickInverse(m).r0, m).c2 == 0.0
    ensures RowTimes(QuickInverse(m).r0, m).c3 == 0.0
    ensures RowTimes(QuickInverse(m).r1, m).c0 == 0.0
    ensures RowTimes(QuickInverse(m).r1, m).c1 == 1.0
    ensures RowTimes(QuickInverse(m).r1, m).c2 == 0.0
    ensures RowTimes(QuickInverse(m).r1, m).c3 == 0.0
    ensures RowTimes(QuickInverse(m).r2, m).c0 == 0.0
    ensures RowTimes(QuickInverse(m).r2, m).c1 == 0.0
    ensures RowTimes(QuickInverse(m).r2, m).c2 == 1.0
    ensures RowTimes(QuickInverse(m).r2, m).c3 == 0.0
  {
    TransposedRow0(m);
    TransposedRow1(m);
    TransposedRow2(m);
  }

  lemma TransposedRow0(m: Matrix4)
    requires Rigid(m)
    ensures RowTimes(QuickInverse(m).r0, m).c0 == 1.0
    ensures RowTimes(QuickInverse(m).r0, m).c1 == 0.0
    ensures RowTimes(QuickInverse(m).r0, m).c2 == 0.0
    ensures RowTimes(QuickInverse(m).r0, m).c3 == 0.0
  {
    ColumnX(m.r0.Xyz(), m.r1.Xyz(), m.r2.Xyz());
  }

  lemma TransposedRow1(m: Matrix4)
    requires Rigid(m)
    ensures RowTimes(QuickInverse(m).r1, m).c0 == 0.0
    ensures RowTimes(QuickInverse(m).r1, m).c1 == 1.0
    ensures RowTimes(QuickInverse(m).r1, m).c2 == 0.0
    ensures RowTimes(QuickInverse(m).r1, m).c3 == 0.0
  {
    ColumnX(m.r0.Xyz(), m.r1.Xyz(), m.r2.Xyz());
    ColumnY(m.r0.Xyz(), m.r1.Xyz(), m.r2.Xyz());
  }

  lemma TransposedRow2(m: Matrix4)
    requires Rigid(m)
    ensures RowTimes(QuickInverse(m).r2, m).c0 == 0.0
    ensures RowTimes(QuickInverse(m).r2, m).c1 == 0.0
    ensures RowTimes(QuickInverse(m).r2, m).c2 == 1.0
    ensures RowTimes(QuickInverse(m).r2, m).c3 == 0.0
  {
    ColumnX(m.r0.Xyz(), m.r1.Xyz(), m.r2.Xyz());
    ColumnY(m.r0.Xyz(), m.r1.Xyz(), m.r2.Xyz());
    ColumnZ(m.r0.Xyz(), m.r1.Xyz(), m.r2.Xyz());
  }

  /** The quick inverse's last row times m: the translation cancels. */
  lemma TranslationRow(m: Matrix4)
    requires Rigid(m)
    ensures RowTimes(QuickInverse(m).r3, m).c0 == 0.0
    ensures RowTimes(QuickInverse(m).r3, m).c1 == 0.0
    ensures RowTimes(QuickInverse(m).r3, m).c2 == 0.0
    ensures RowTimes(QuickInverse(m).r3, m).c3 == 1.0
  {
    var a, b, c, t := m.r0.Xyz(), m.r1.Xyz(), m.r2.Xyz(), m.r3.Xyz();
    TranslationCancels(a, b, c, t);
  }

  /** A row v times the quick inverse of m: v's dot products with m's
      first three rows, less v.c3 times those of the translation. */
  lemma QuickInverseRow(v: Vec4, m: Matrix4)
    ensures RowTimes(v, QuickInverse(m)).c0 == DotProduct(v.Xyz(), m.r0.Xyz()) - v.c3 * DotProduct(m.r3.Xyz(), m.r0.Xyz())
    ensures RowTimes(v, QuickInverse(m)).c1 == DotProduct(v.Xyz(), m.r1.Xyz()) - v.c3 * DotProduct(m.r3.Xyz(), m.r1.Xyz())
    ensures RowTimes(v, QuickInverse(m)).c2 == DotProduct(v.Xyz(), m.r2.Xyz()) - v.c3 * DotProduct(m.r3.Xyz(), m.r2.Xyz())
    ensures RowTimes(v, QuickInverse(m)).c3 == v.c3
  {
  }

  /** A row v times a rigid m, column by column: v's dot products with the
      columns of the 3x3 block plus v.c3 times the translation, and v.c3. */
  lemma RigidRow(v: Vec4, m: Matrix4)
    requires Rigid(m)
    ensures RowTimes(v, m) == Vec4(
      DotProduct(v.Xyz(), Make3D(m.r0.c0, m.r1.c0, m.r2.c0)) + v.c3 * m.r3.c0,
      DotProduct(v.Xyz(), Make3D(m.r0.c1, m.r1.c1, m.r2.c1)) + v.c3 * m.r3.c1,
      DotProduct(v.Xyz(), Make3D(m.r0.c2, m.r1.c2, m.r2.c2)) + v.c3 * m.r3.c2,
      v.c3)
  {
  }

  /** The last row of the quick inverse times m: the translation expanded in
      the orthonormal basis a, b, c cancels with itself. */
  lemma TranslationCancels(a: Vec3D, b: Vec3D, c: Vec3D, t: Vec3D)
    requires Orthonormal(a, b, c)
    ensures DotProduct(Make3D(-DotProduct(t, a), -DotProduct(t, b), -DotProduct(t, c)), Make3D(a.x, b.x, c.x)) + t.x == 0.0
    ensures DotProduct(Make3D(-DotProduct(t, a), -DotProduct(t, b), -DotProduct(t, c)), Make3D(a.y, b.y, c.y)) + t.y == 0.0
    ensures DotProduct(Make3D(-DotProduct(t, a), -DotProduct(t, b), -DotProduct(t, c)), Make3D(a.z, b.z, c.z)) + t.z == 0.0
  {
    BasisExpansion(a, b, c, t);
    assert DotProduct(t, a) == DotProduct(a, t) && DotProduct(t, b) == DotProduct(b, t) && DotProduct(t, c) == DotProduct(c, t);
  }
  // PointAt builds a rigid matrix.

  /** Once the up residue is normalised it is orthogonal to the forward axis. */
  lemma UpResidueOrthogonal(pos: Vec3D, target: Vec3D, up: Vec3D, math: MathLib)
    requires CanPointAt(pos, target, up, math)
    ensures DotProduct(Forward(pos, target, math), Normalize(UpResidue(pos, target, up, math), math)) == 0.0
  {
    var f := Forward(pos, target, math);
    var r := UpResidue(pos, target, up, math);
    var n := Normalize(r, math);
    ResidueOrthogonal(f, up);
    var k :| k > 0.0 && SameXyz(n, MultiplyConst(r, k));
    ScaledDot(f, r, n, k);
  }

  /** Removing from u its component along the unit vector f leaves a
      vector orthogonal to f (one step of Gram-Schmidt). */
  lemma ResidueOrthogonal(f: Vec3D, u: Vec3D)
    requires Size2(f) == 1.0
    ensures DotProduct(f, Subtract(u, MultiplyConst(f, DotProduct(u, f)))) == 0.0
  {
    var d := DotProduct(u, f);
    ResidueDot(f, u, d);
    assert d * Size2(f) == d;
  }

  lemma ResidueDot(f: Vec3D, u: Vec3D, d: real)
    ensures DotProduct(f, Subtract(u, MultiplyConst(f, d))) == DotProduct(u, f) - d * Size2(f)
  {
  }

  /** Scaling the second argument scales the dot product. */
  lemma ScaledDot(f: Vec3D, r: Vec3D, n: Vec3D, k: real)
    requires SameXyz(n, MultiplyConst(r, k))
    ensures DotProduct(f, n) == k * DotProduct(f, r)
  {
  }

  /** `PointAt` returns a rigid matrix whose rows are right, up and forward,
      with forward the unit direction from pos to target, and whose last row
      is the position: it maps the camera's own axes onto the world's. */
  lemma PointAtRigid(pos: Vec3D, target: Vec3D, up: Vec3D, math: MathLib)
    requires CanPointAt(pos, target, up, math)
    ensures Rigid(PointAt(pos, target, up, math))
    ensures PointAt(pos, target, up, math).r2.Xyz() == Forward(pos, target, math)
    ensures PointAt(pos, target, up, math).r3 == Vec4(pos.x, pos.y, pos.z, 1.0)
  {
    var f := Forward(pos, target, math);
    var n := Normalize(UpResidue(pos, target, up, math), math);
    var right := CrossProduct(f, n);
    var m := PointAt(pos, target, up, math);
    UpResidueOrthogonal(pos, target, up, math);
    CrossOrthogonal(f, n);
    CrossOfUnits(f, n);
    assert m.r0.Xyz() == right && m.r1.Xyz() == n && m.r2.Xyz() == f;
    assert DotProduct(right, n) == DotProduct(n, right) && DotProduct(right, f) == DotProduct(f, right);
    assert DotProduct(n, f) == DotProduct(f, n);
  }
}
