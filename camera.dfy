/** The camera (src/camera.ts).

    The camera is an entity that also holds a projection matrix and a view
    matrix. Its view looks along the entity's transformed z axis: `update`
    aims `PointAt` from the position at the transformed point (0, 0, 1)
    with the default up (0, 1, 0) and inverts the result with
    `QuickInverse`. Triangles are then culled, clipped against the near and
    far planes, projected with the perspective divide, and finally clipped
    against the four sides of the normalised screen. */
module Cameras {
  import opened Maths
  import opened Vectors
  import opened Matrices
  import Triangles
  import opened Entities

  // The plane constants: a point on each plane and its inward normal.

  function UpPoint(): Vec3D { Make3D(0.0, 1.0, 0.0) }
  function UpNormal(): Vec3D { Make3D(0.0, -1.0, 0.0) }
  function DownPoint(): Vec3D { Make3D(0.0, -1.0, 0.0) }
  function DownNormal(): Vec3D { Make3D(0.0, 1.0, 0.0) }
  function LeftPoint(): Vec3D { Make3D(-1.0, 0.0, 0.0) }
  function LeftNormal(): Vec3D { Make3D(1.0, 0.0, 0.0) }
  function RightPoint(): Vec3D { Make3D(1.0, 0.0, 0.0) }
  function RightNormal(): Vec3D { Make3D(-1.0, 0.0, 0.0) }

  /** The camera's `nearNormal`, also the local forward axis. */
  function NearNormal(): Vec3D { Make3D(0.0, 0.0, 1.0) }
  function FarNormal(): Vec3D { Make3D(0.0, 0.0, -1.0) }

  /** The default `_up` of `PointAt`. */
  function WorldUp(): Vec3D { Make3D(0.0, 1.0, 0.0) }

  // Where the camera looks.

  /** The point `update` aims at: the near normal through the world matrix. */
  function Target(pos: Vec3D, rot: Vec3D, math: MathLib): Vec3D {
    Matrices.MultiplyVector(NearNormal(), Transform(pos, rot, math))
  }

  /** The viewing direction for pitch (cx, sx) and yaw (cy, sy); the roll
      does not move the z axis. */
  function ViewDirection(cx: real, sx: real, cy: real, sy: real): Vec3D {
    Make3D(-(cx * sy), -sx, cx * cy)
  }

  /** The target is the position moved one unit along the viewing direction,
      whatever the roll; its w is 1. */
  lemma TargetOffset(pos: Vec3D, cx: real, sx: real, cy: real, sy: real, cz: real, sz: real)
    ensures Subtract(Matrices.MultiplyVector(NearNormal(), WorldMatrix(pos, cx, sx, cy, sy, cz, sz)), pos)
         == ViewDirection(cx, sx, cy, sy)
    ensures Matrices.MultiplyVector(NearNormal(), WorldMatrix(pos, cx, sx, cy, sy, cz, sz)).w == 1.0
  {
    WorldMatrixSequential(NearNormal(), pos, cx, sx, cy, sy, cz, sz);
    var a := Matrices.MultiplyVector(NearNormal(), MakeRotationZ(cz, sz));
    assert a == Vec3D(0.0, 0.0, 1.0, 1.0);
    var b := Matrices.MultiplyVector(a, MakeRotationX(cx, sx));
    assert b == Vec3D(0.0, -sx, cx, 1.0);
    var c := Matrices.MultiplyVector(b, MakeRotationY(cy, sy));
    assert c == Vec3D(-(cx * sy), -sx, cx * cy, 1.0);
    TranslationMovesPoint(c, pos);
  }

  /** For unit (cos, sin) pairs the viewing direction has length 1. */
  lemma ViewDirectionUnit(cx: real, sx: real, cy: real, sy: real)
    requires cx * cx + sx * sx == 1.0 && cy * cy + sy * sy == 1.0
    ensures Size2(ViewDirection(cx, sx, cy, sy)) == 1.0
  {
    assert (cx * sy) * (cx * sy) + (cx * cy) * (cx * cy) == (cx * cx) * (sy * sy + cy * cy);
  }

  /** The part of the world up orthogonal to the viewing direction has
      squared length cos(pitch)^2: it vanishes exactly when the camera looks
      straight up or down. */
  lemma UpResidueSize(cx: real, sx: real, cy: real, sy: real)
    requires cx * cx + sx * sx == 1.0 && cy * cy + sy * sy == 1.0
    ensures var f := ViewDirection(cx, sx, cy, sy);
            Size2(Subtract(WorldUp(), MultiplyConst(f, DotProduct(WorldUp(), f)))) == cx * cx
  {
    var f := ViewDirection(cx, sx, cy, sy);
    assert DotProduct(WorldUp(), f) == -sx;
    var r := Subtract(WorldUp(), MultiplyConst(f, -sx));
    assert r == Make3D(-(cx * sy * sx), 1.0 - sx * sx, cx * cy * sx);
    ResidueSquares(cx, sx, cy, sy, r.x, r.y, r.z);
  }

  lemma ResidueSquares(cx: real, sx: real, cy: real, sy: real, rx: real, ry: real, rz: real)
    requires cx * cx + sx * sx == 1.0 && cy * cy + sy * sy == 1.0
    requires rx == -(cx * sy * sx) && ry == 1.0 - sx * sx && rz == cx * cy * sx
    ensures rx * rx + ry * ry + rz * rz == cx * cx
  {
    assert ry == cx * cx;
    assert rx * rx + rz * rz == (cx * cx) * (sx * sx) * (sy * sy + cy * cy);
    assert ry * ry == (cx * cx) * (cx * cx);
    assert (cx * cx) * (sx * sx) + (cx * cx) * (cx * cx) == (cx * cx) * (sx * sx + cx * cx);
  }

  /** `PointAt` is defined for the camera's target exactly when the cosine
      of the pitch is not zero; the forward axis is then the viewing
      direction itself. */
  lemma CameraCanPointAt(pos: Vec3D, rot: Vec3D, math: MathLib)
    requires math.Valid()
    ensures Size2(Subtract(Target(pos, rot, math), pos)) == 1.0
    ensures Forward(pos, Target(pos, rot, math), math)
         == ViewDirection(math.cos(rot.x), math.sin(rot.x), math.cos(rot.y), math.sin(rot.y))
    ensures CanPointAt(pos, Target(pos, rot, math), WorldUp(), math) <==> math.cos(rot.x) != 0.0
  {
    var cx, sx, cy, sy := math.cos(rot.x), math.sin(rot.x), math.cos(rot.y), math.sin(rot.y);
    assert sx * sx + cx * cx == 1.0 && sy * sy + cy * cy == 1.0;
    TargetOffset(pos, cx, sx, cy, sy, math.cos(rot.z), math.sin(rot.z));
    var f := ViewDirection(cx, sx, cy, sy);
    ViewDirectionUnit(cx, sx, cy, sy);
    NormalizeUnit(f, math);
    var target := Target(pos, rot, math);
    assert Forward(pos, target, math) == f;
    UpResidueSize(cx, sx, cy, sy);
    assert Size2(UpResidue(pos, target, WorldUp(), math)) == cx * cx;
    PointableIff(pos, target, math, cx);
  }

  lemma PointableIff(pos: Vec3D, target: Vec3D, math: MathLib, c: real)
    requires math.Valid() && Size2(Subtract(target, pos)) == 1.0
    requires Size2(UpResidue(pos, target, WorldUp(), math)) == c * c
    ensures CanPointAt(pos, target, WorldUp(), math) <==> c != 0.0
  {
    var r := Size2(UpResidue(pos, target, WorldUp(), math));
    assert CanPointAt(pos, target, WorldUp(), math) <==> r > 0.0;
    SquareFacts(c, r);
  }

  /** The view matrix `update` computes for a position and rotation. */
  function ViewMatrix(pos: Vec3D, rot: Vec3D, math: MathLib): Matrix4
    requires math.Valid() && math.cos(rot.x) != 0.0
  {
    CameraCanPointAt(pos, rot, math);
    QuickInverse(PointAt(pos, Target(pos, rot, math), WorldUp(), math))
  }

  /** The view matrix undoes the camera's placement: it is a two-sided
      inverse of the `PointAt` matrix, it takes the camera's position to the
      origin and its target to (0, 0, 1) on the view's z axis. */
  lemma ViewMatrixInverts(pos: Vec3D, rot: Vec3D, math: MathLib)
    requires math.Valid() && math.cos(rot.x) != 0.0
    ensures CanPointAt(pos, Target(pos, rot, math), WorldUp(), math)
    ensures Product(PointAt(pos, Target(pos, rot, math), WorldUp(), math), ViewMatrix(pos, rot, math)) == Identity()
    ensures Product(ViewMatrix(pos, rot, math), PointAt(pos, Target(pos, rot, math), WorldUp(), math)) == Identity()
    ensures Matrices.MultiplyVector(Make3D(pos.x, pos.y, pos.z), ViewMatrix(pos, rot, math)) == Make3D(0.0, 0.0, 0.0)
    ensures Matrices.MultiplyVector(Target(pos, rot, math), ViewMatrix(pos, rot, math)) == Make3D(0.0, 0.0, 1.0)
  {
    var target := Target(pos, rot, math);
    CameraCanPointAt(pos, rot, math);
    var m := PointAt(pos, target, WorldUp(), math);
    var v := ViewMatrix(pos, rot, math);
    PointAtRigid(pos, target, WorldUp(), math);
    QuickInverseIsInverse(m);
    var cx, sx, cy, sy := math.cos(rot.x), math.sin(rot.x), math.cos(rot.y), math.sin(rot.y);
    TargetOffset(pos, cx, sx, cy, sy, math.cos(rot.z), math.sin(rot.z));
    assert Matrices.MultiplyVector(Make3D(0.0, 0.0, 0.0), m) == Make3D(pos.x, pos.y, pos.z);
    assert Matrices.MultiplyVector(NearNormal(), m) == target;
    MultiplyVectorProduct(Make3D(0.0, 0.0, 0.0), m, v);
    MultiplyVectorProduct(NearNormal(), m, v);
    MultiplyVectorIdentity(Make3D(0.0, 0.0, 0.0));
    MultiplyVectorIdentity(NearNormal());
  }

  /** With the pitch inside the clamp range its cosine is positive, so the
      view matrix is defined. */
  lemma ClampedPitchViewable(x: real, math: MathLib)
    requires math.Valid() && -math.pi / 2.1 <= x <= math.pi / 2.1
    ensures math.cos(x) > 0.0
  {
  }

  // Back-face culling.

  /** One entry of `backFaceCulling`'s result: a triangle index and the dot
      product of its normal with the unit direction from the camera to its
      first vertex. */
  datatype Facing = Facing(i: nat, d: real)

  /** The `d` that `backFaceCulling` computes for one triangle. */
  function FacingDot(tri: Triangles.Tri, normal: Vec3D, pos: Vec3D, math: MathLib): real
    requires math.Valid() && Size2(Subtract(tri.p0, pos)) > 0.0
  {
    DotProduct(normal, Normalize(Subtract(tri.p0, pos), math))
  }

  /** Normalising the direction scales the dot product by a positive factor,
      so its sign is that of normal . (p0 - pos). */
  lemma FacingSign(tri: Triangles.Tri, normal: Vec3D, pos: Vec3D, math: MathLib)
    requires math.Valid() && Size2(Subtract(tri.p0, pos)) > 0.0
    ensures FacingDot(tri, normal, pos, math) < 0.0 <==> DotProduct(normal, Subtract(tri.p0, pos)) < 0.0
  {
    var u := Subtract(tri.p0, pos);
    var n := Normalize(u, math);
    var k :| k > 0.0 && SameXyz(n, MultiplyConst(u, k));
    ScaledDot(normal, u, n, k);
    PositiveScaleSign(k, DotProduct(normal, u), DotProduct(normal, n));
  }

  lemma PositiveScaleSign(k: real, x: real, y: real)
    requires k > 0.0 && y == k * x
    ensures y < 0.0 <==> x < 0.0
  {
    if x >= 0.0 {
      assert y >= 0.0;
    } else {
      MulPositive(k, -x, -y);
    }
  }

  /** The entries' indices strictly increase. */
  predicate Increasing(v: seq<Facing>) {
    forall a, b :: 0 <= a < b < |v| ==> v[a].i < v[b].i
  }

  /** `tris.map((t, i) => ({ i, d }))`. */
  function Visibility(tris: seq<Triangles.Tri>, normals: seq<Vec3D>, pos: Vec3D, math: MathLib): (v: seq<Facing>)
    requires math.Valid() && |normals| >= |tris|
    requires forall i :: 0 <= i < |tris| ==> Size2(Subtract(tris[i].p0, pos)) > 0.0
    ensures |v| == |tris| && Increasing(v)
    ensures forall k :: 0 <= k < |v| ==> v[k] == Facing(k, FacingDot(tris[k], normals[k], pos, math))
  {
    seq(|tris|, k requires 0 <= k < |tris| => Facing(k, FacingDot(tris[k], normals[k], pos, math)))
  }

  /** `filter(({ d }) => d < 0)`: the entries with a negative d, in order. */
  function KeepFacing(v: seq<Facing>): (r: seq<Facing>)
    ensures forall k :: 0 <= k < |r| ==> r[k] in v && r[k].d < 0.0
    ensures forall e :: e in v && e.d < 0.0 ==> e in r
  {
    if |v| == 0 then []
    else
      assert v == [v[0]] + v[1..];
      if v[0].d < 0.0 then [v[0]] + KeepFacing(v[1..]) else KeepFacing(v[1..])
  }

  /** Filtering keeps the order of the entries. */
  lemma {:induction false} KeepFacingIncreasing(v: seq<Facing>)
    requires Increasing(v)
    ensures Increasing(KeepFacing(v))
  {
    if |v| > 0 {
      KeepFacingIncreasing(v[1..]);
      KeepFacingAbove(v[1..], v[0].i);
    }
  }

  /** Filtering keeps a lower bound on the indices. */
  lemma {:induction false} KeepFacingAbove(v: seq<Facing>, lo: int)
    requires forall k :: 0 <= k < |v| ==> lo < v[k].i
    ensures forall k :: 0 <= k < |KeepFacing(v)| ==> lo < KeepFacing(v)[k].i
  {
    if |v| > 0 {
      KeepFacingAbove(v[1..], lo);
    }
  }

  /** `backFaceCulling` for a camera at `pos`. The source reads `normals[i]`
      for every triangle, so there must be a normal per triangle; a camera
      standing on a triangle's first vertex would normalise the zero vector. */
  function BackFaceCulling(tris: seq<Triangles.Tri>, normals: seq<Vec3D>, pos: Vec3D, math: MathLib): (r: seq<Facing>)
    requires math.Valid() && |normals| >= |tris|
    requires forall i :: 0 <= i < |tris| ==> Size2(Subtract(tris[i].p0, pos)) > 0.0
    ensures Increasing(r)
    ensures forall k :: 0 <= k < |r| ==>
      && r[k].i < |tris| && r[k].d < 0.0
      && r[k].d == FacingDot(tris[r[k].i], normals[r[k].i], pos, math)
    ensures forall i :: 0 <= i < |tris| ==>
      (DotProduct(normals[i], Subtract(tris[i].p0, pos)) < 0.0 <==> exists k :: 0 <= k < |r| && r[k].i == i)
  {
    var v := Visibility(tris, normals, pos, math);
    var r := KeepFacing(v);
    KeepFacingIncreasing(v);
    forall i | 0 <= i < |tris|
      ensures DotProduct(normals[i], Subtract(tris[i].p0, pos)) < 0.0 <==> exists k :: 0 <= k < |r| && r[k].i == i
    {
      FacingSign(tris[i], normals[i], pos, math);
      if FacingDot(tris[i], normals[i], pos, math) < 0.0 {
        assert v[i] in r;
        var k :| 0 <= k < |r| && r[k] == v[i];
      }
    }
    r
  }

  // Near and far clipping, and the perspective divide.

  /** Every vertex lies between the near and the far plane, in view space. */
  predicate InDepthRange(tri: Triangles.Tri, near: real, far: real) {
    forall i :: 0 <= i < 3 ==> near <= tri.P(i).z <= far
  }

  /** The first half of `project2D`: the triangle in view space, clipped
      against the near plane and each piece against the far plane. */
  function ViewClip(view: Matrix4, near: real, far: real, tri: Triangles.Tri): (r: seq<Triangles.Tri>)
    ensures |r| <= 4
    ensures forall k :: 0 <= k < |r| ==> InDepthRange(r[k], near, far)
  {
    var nearPoint, farPoint := Make3D(0.0, 0.0, near), Make3D(0.0, 0.0, far);
    var clipped := Triangles.ClipAgainstPlane(nearPoint, NearNormal(), Triangles.MultiplyMatrix(tri, view));
    Triangles.ClipOutputInside(nearPoint, NearNormal(), Triangles.MultiplyMatrix(tri, view));
    var r := Triangles.ClipAll(farPoint, FarNormal(), clipped);
    Triangles.ClipAllKeepsHalfSpace(farPoint, FarNormal(), clipped, nearPoint, NearNormal());
    forall k | 0 <= k < |r|
      ensures InDepthRange(r[k], near, far)
    {
      BetweenPlanes(near, far, r[k]);
    }
    r
  }

  /** Inside both clipping planes means between their depths. */
  lemma BetweenPlanes(near: real, far: real, tri: Triangles.Tri)
    requires Triangles.Inside(Make3D(0.0, 0.0, near), NearNormal(), tri)
    requires Triangles.Inside(Make3D(0.0, 0.0, far), FarNormal(), tri)
    ensures InDepthRange(tri, near, far)
  {
    assert tri.P(0) == tri.p0 && tri.P(1) == tri.p1 && tri.P(2) == tri.p2;
  }

  /** The projection leaves every vertex with a non-zero w. */
  predicate Projectable(tri: Triangles.Tri, proj: Matrix4) {
    && Matrices.MultiplyVector(tri.p0, proj).w != 0.0
    && Matrices.MultiplyVector(tri.p1, proj).w != 0.0
    && Matrices.MultiplyVector(tri.p2, proj).w != 0.0
  }

  /** The perspective divide of one projected vertex, x and y negated. */
  function Perspective(q: Vec3D): Vec3D
    requires q.w != 0.0
  {
    Make3D(-(q.x / q.w), -(q.y / q.w), q.z / q.w)
  }

  /** A texture coordinate divided by the vertex's w, which it keeps as
      1 / w for perspective-correct interpolation. */
  function PerspectiveTex(t: Vec2D, w: real): Vec2D
    requires w != 0.0
  {
    Vec2D(t.u / w, t.v / w, 1.0 / w)
  }

  /** The `map` of `project2D` for one clipped triangle: project it, scale
      each texture coordinate by 1 / w and set its w to 1 / w, scale each
      vertex by 1 / w, then negate y and x. The result is the perspective
      divide of every vertex and texture coordinate. */
  function ProjectTri(tri: Triangles.Tri, proj: Matrix4): (r: Triangles.Tri)
    requires Projectable(tri, proj)
    ensures var q0, q1, q2 := Matrices.MultiplyVector(tri.p0, proj), Matrices.MultiplyVector(tri.p1, proj),
                              Matrices.MultiplyVector(tri.p2, proj);
      r == Triangles.Tri(Perspective(q0), Perspective(q1), Perspective(q2),
        PerspectiveTex(tri.t0, q0.w), PerspectiveTex(tri.t1, q1.w), PerspectiveTex(tri.t2, q2.w), tri.l)
  {
    var projected := Triangles.MultiplyMatrix(tri, proj);
    var k := Make3D(1.0 / projected.p0.w, 1.0 / projected.p1.w, 1.0 / projected.p2.w);
    var f := Triangles.MultiplyVectorAsCons2D(projected, k);
    var f := f.(t0 := f.t0.(w := k.x), t1 := f.t1.(w := k.y), t2 := f.t2.(w := k.z));
    var f := Triangles.MultiplyVectorAsConst(f, k);
    var f := f.(p0 := f.p0.(y := -f.p0.y), p1 := f.p1.(y := -f.p1.y), p2 := f.p2.(y := -f.p2.y));
    var r := f.(p0 := f.p0.(x := -f.p0.x), p1 := f.p1.(x := -f.p1.x), p2 := f.p2.(x := -f.p2.x));
    DivideVertex(projected.p0);
    DivideVertex(projected.p1);
    DivideVertex(projected.p2);
    DivideTex(tri.t0, projected.p0.w);
    DivideTex(tri.t1, projected.p1.w);
    DivideTex(tri.t2, projected.p2.w);
    r
  }

  /** Scaling by 1 / w and negating x and y is the divide. */
  lemma DivideVertex(q: Vec3D)
    requires q.w != 0.0
    ensures var s := Vectors.MultiplyConst(q, 1.0 / q.w);
      Perspective(q) == s.(y := -s.y).(x := -s.(y := -s.y).x)
  {
    Reciprocal(q.x, q.w);
    Reciprocal(q.y, q.w);
    Reciprocal(q.z, q.w);
  }

  lemma DivideTex(t: Vec2D, w: real)
    requires w != 0.0
    ensures PerspectiveTex(t, w) == MultiplyConst2D(t, 1.0 / w).(w := 1.0 / w)
  {
    Reciprocal(t.u, w);
    Reciprocal(t.v, w);
  }

  lemma Reciprocal(x: real, w: real)
    requires w != 0.0
    ensures x * (1.0 / w) == x / w
  {
  }

  /** Projects every triangle of a list, in order. */
  function ProjectAll(tris: seq<Triangles.Tri>, proj: Matrix4): (r: seq<Triangles.Tri>)
    requires forall k :: 0 <= k < |tris| ==> Projectable(tris[k], proj)
    ensures |r| == |tris|
    ensures forall k :: 0 <= k < |r| ==> r[k] == ProjectTri(tris[k], proj)
  {
    seq(|tris|, k requires 0 <= k < |tris| => ProjectTri(tris[k], proj))
  }

  /** A triangle in front of the near plane can be projected: the
      projection's w is the view-space depth. */
  lemma InRangeProjectable(tri: Triangles.Tri, fovFactor: real, aspectRatio: real, near: real, far: real)
    requires 0.0 < near < far && InDepthRange(tri, near, far)
    ensures Projectable(tri, MakeProjection(fovFactor, aspectRatio, near, far))
  {
    assert tri.P(0) == tri.p0 && tri.P(1) == tri.p1 && tri.P(2) == tri.p2;
    ProjectionDepth(tri.p0, fovFactor, aspectRatio, near, far);
    ProjectionDepth(tri.p1, fovFactor, aspectRatio, near, far);
    ProjectionDepth(tri.p2, fovFactor, aspectRatio, near, far);
  }

  /** `project2D` for a view matrix and the projection built from the
      field-of-view factor, aspect ratio and clip distances: at most four
      triangles, each the projection of a view-space piece lying between the
      near and the far plane. */
  function Project2D(view: Matrix4, fovFactor: real, aspectRatio: real, near: real, far: real, tri: Triangles.Tri): (r: seq<Triangles.Tri>)
    requires 0.0 < near < far
    ensures |r| <= 4
  {
    var clipped := ViewClip(view, near, far, tri);
    var proj := MakeProjection(fovFactor, aspectRatio, near, far);
    ProjectablePieces(view, fovFactor, aspectRatio, near, far, tri);
    ProjectAll(clipped, proj)
  }

  /** What `project2D` reads from a camera: the view matrix, the
      field-of-view factor, the aspect ratio and the clip depths. */
  datatype Lens = Lens(view: Matrix4, fovFactor: real, aspectRatio: real, near: real, far: real)
  {
    predicate Ready() {
      0.0 < near < far
    }

    /** `project2D` through this lens. */
    function Project(tri: Triangles.Tri): (r: seq<Triangles.Tri>)
      requires Ready()
      ensures |r| <= 4
    {
      Project2D(view, fovFactor, aspectRatio, near, far, tri)
    }
  }

  /** Every piece the near/far clip leaves can be projected. */
  lemma ProjectablePieces(view: Matrix4, fovFactor: real, aspectRatio: real, near: real, far: real, tri: Triangles.Tri)
    requires 0.0 < near < far
    ensures var c, proj := ViewClip(view, near, far, tri), MakeProjection(fovFactor, aspectRatio, near, far);
      forall k :: 0 <= k < |c| ==> Projectable(c[k], proj)
  {
    var clipped := ViewClip(view, near, far, tri);
    forall k | 0 <= k < |clipped|
      ensures Projectable(clipped[k], MakeProjection(fovFactor, aspectRatio, near, far))
    {
      InRangeProjectable(clipped[k], fovFactor, aspectRatio, near, far);
    }
  }

  /** `project2D` yields one triangle per piece of the near/far clip, each
      the perspective projection of that piece. */
  lemma Project2DPieces(view: Matrix4, fovFactor: real, aspectRatio: real, near: real, far: real, tri: Triangles.Tri)
    requires 0.0 < near < far
    ensures var r, c, proj := Project2D(view, fovFactor, aspectRatio, near, far, tri),
        ViewClip(view, near, far, tri), MakeProjection(fovFactor, aspectRatio, near, far);
      && |r| == |c|
      && (forall k :: 0 <= k < |c| ==> Projectable(c[k], proj))
      && (forall k :: 0 <= k < |r| ==> r[k] == ProjectTri(c[k], proj))
  {
    ProjectablePieces(view, fovFactor, aspectRatio, near, far, tri);
  }

  /** What the divide yields for a vertex p at view depth p.z >= near:
      its texture coordinate divided by p.z with w = 1 / p.z in (0, 1 / near],
      and screen x and y equal to the view x and y scaled by the projection
      factors and divided by p.z, both negated. */
  lemma ProjectedVertex(p: Vec3D, t: Vec2D, fovFactor: real, aspectRatio: real, near: real, far: real)
    requires 0.0 < near <= p.z && near < far
    ensures var q := Matrices.MultiplyVector(p, MakeProjection(fovFactor, aspectRatio, near, far));
      && q.w == p.z
      && PerspectiveTex(t, q.w) == Vec2D(t.u / p.z, t.v / p.z, 1.0 / p.z)
      && 0.0 < PerspectiveTex(t, q.w).w <= 1.0 / near
      && Perspective(q).x == -(p.x * aspectRatio * fovFactor / p.z)
      && Perspective(q).y == -(p.y * fovFactor / p.z)
  {
    ProjectionDepth(p, fovFactor, aspectRatio, near, far);
    ReciprocalBound(near, p.z);
  }

  lemma ReciprocalBound(near: real, z: real)
    requires 0.0 < near <= z
    ensures 0.0 < 1.0 / z <= 1.0 / near
  {
  }

  // The frustum clip.

  /** A point lies in the square [-1, 1] x [-1, 1] of normalised screen
      space. */
  predicate OnScreenPoint(p: Vec3D) {
    -1.0 <= p.x <= 1.0 && -1.0 <= p.y <= 1.0
  }

  predicate OnScreen(tri: Triangles.Tri) {
    OnScreenPoint(tri.p0) && OnScreenPoint(tri.p1) && OnScreenPoint(tri.p2)
  }

  /** Inside the four frustum planes is being on screen: the signed
      distances are 1 - y, y + 1, x + 1 and 1 - x. */
  lemma FrustumPlanes(p: Vec3D)
    ensures OnScreenPoint(p) <==>
      && Dist(UpPoint(), UpNormal(), p) >= 0.0 && Dist(DownPoint(), DownNormal(), p) >= 0.0
      && Dist(LeftPoint(), LeftNormal(), p) >= 0.0 && Dist(RightPoint(), RightNormal(), p) >= 0.0
  {
  }

  lemma FrustumPlanesTri(tri: Triangles.Tri)
    ensures OnScreen(tri) <==>
      && Triangles.Inside(UpPoint(), UpNormal(), tri) && Triangles.Inside(DownPoint(), DownNormal(), tri)
      && Triangles.Inside(LeftPoint(), LeftNormal(), tri) && Triangles.Inside(RightPoint(), RightNormal(), tri)
  {
    FrustumPlanes(tri.p0);
    FrustumPlanes(tri.p1);
    FrustumPlanes(tri.p2);
  }

  /** `frustumClip`: clip against the top plane, then every piece against
      the bottom, left and right planes in turn. */
  function FrustumClip(tri: Triangles.Tri): (r: seq<Triangles.Tri>)
    ensures |r| <= 16
    ensures forall k :: 0 <= k < |r| ==> OnScreen(r[k])
  {
    var up := Triangles.ClipAgainstPlane(UpPoint(), UpNormal(), tri);
    Triangles.ClipOutputInside(UpPoint(), UpNormal(), tri);
    var down := Triangles.ClipAll(DownPoint(), DownNormal(), up);
    Triangles.ClipAllKeepsHalfSpace(DownPoint(), DownNormal(), up, UpPoint(), UpNormal());
    var left := Triangles.ClipAll(LeftPoint(), LeftNormal(), down);
    Triangles.ClipAllKeepsHalfSpace(LeftPoint(), LeftNormal(), down, UpPoint(), UpNormal());
    Triangles.ClipAllKeepsHalfSpace(LeftPoint(), LeftNormal(), down, DownPoint(), DownNormal());
    var r := Triangles.ClipAll(RightPoint(), RightNormal(), left);
    Triangles.ClipAllKeepsHalfSpace(RightPoint(), RightNormal(), left, UpPoint(), UpNormal());
    Triangles.ClipAllKeepsHalfSpace(RightPoint(), RightNormal(), left, DownPoint(), DownNormal());
    Triangles.ClipAllKeepsHalfSpace(RightPoint(), RightNormal(), left, LeftPoint(), LeftNormal());
    forall k | 0 <= k < |r|
      ensures OnScreen(r[k])
    {
      FrustumPlanesTri(r[k]);
    }
    r
  }

  /** A triangle already on screen comes back alone and unchanged. */
  lemma FrustumKeepsOnScreen(tri: Triangles.Tri)
    requires OnScreen(tri)
    ensures FrustumClip(tri) == [tri]
  {
    FrustumPlanesTri(tri);
    Triangles.ClipAllInside(UpPoint(), UpNormal(), tri);
    Triangles.ClipAllInsideUnchanged(DownPoint(), DownNormal(), [tri]);
    Triangles.ClipAllInsideUnchanged(LeftPoint(), LeftNormal(), [tri]);
    Triangles.ClipAllInsideUnchanged(RightPoint(), RightNormal(), [tri]);
  }

  // The camera object.

  /** Clamping to [-b, b] lands there. */
  lemma ClampBounds(u: real, b: real)
    requires b > 0.0
    ensures -b <= Min(Max(u, -b), b) <= b
  {
  }

  class Camera {
    /** The entity part: position and rotation. */
    const entity: Entity
    const aspectRatio: real
    /** The field of view in degrees. */
    const fov: real
    const nearPoint: Vec3D
    const farPoint: Vec3D
    var projectionMatrix: Matrix4
    var viewMatrix: Matrix4
    /** How many times `update` has run. */
    ghost var updates: nat

    /** The math library is sound, the clip planes lie in front of the
        camera, near before far, and the projection matrix is the one
        `resize` builds. */
    ghost predicate Valid(math: MathLib)
      reads this
    {
      math.Valid() && ProjectionReady(math)
    }

    /** The part of `Valid` that projecting a triangle needs. */
    predicate ProjectionReady(math: MathLib)
      reads this
    {
      && 0.0 < nearPoint.z < farPoint.z
      && nearPoint == Make3D(0.0, 0.0, nearPoint.z) && farPoint == Make3D(0.0, 0.0, farPoint.z)
      && FovDefined(fov, math)
      && projectionMatrix == MakeProjection(FovFactor(fov, math), aspectRatio, nearPoint.z, farPoint.z)
    }

    /** The view matrix is the one `update` computes from the entity. */
    ghost predicate ViewCurrent(math: MathLib)
      reads this, entity
    {
      math.Valid() && math.cos(entity.rot.x) != 0.0 && viewMatrix == ViewMatrix(entity.pos, entity.rot, math)
    }

    /** `new Camera(aspectRatio, fov, pos, rot, clipNear, clipFar)`: sets the
        clip points, then calls `resize` and `update` once each. The source
        divides by far - near and later by view depths; the model requires
        0 < clipNear < clipFar for that. */
    constructor (aspectRatio: real, fov: real, pos: Vec3D, rot: Vec3D, clipNear: real, clipFar: real, math: MathLib)
      requires math.Valid() && 0.0 < clipNear < clipFar
      requires FovDefined(fov, math)
      requires math.cos(rot.x) != 0.0
      ensures Valid(math) && ViewCurrent(math)
      ensures entity.pos == pos && entity.rot == rot && fresh(entity)
      ensures this.aspectRatio == aspectRatio && this.fov == fov
      ensures nearPoint == Make3D(0.0, 0.0, clipNear) && farPoint == Make3D(0.0, 0.0, clipFar)
      ensures updates == 1
    {
      entity := new Entity(pos, rot);
      this.aspectRatio := aspectRatio;
      this.fov := fov;
      nearPoint := Make3D(0.0, 0.0, clipNear);
      farPoint := Make3D(0.0, 0.0, clipFar);
      updates := 0;
      new;
      Resize(math);
      Update(math);
    }

    /** `resize`: rebuilds the projection matrix from the settings. */
    method Resize(math: MathLib)
      requires 0.0 < nearPoint.z < farPoint.z && FovDefined(fov, math)
      modifies this
      ensures projectionMatrix == MakeProjection(FovFactor(fov, math), aspectRatio, nearPoint.z, farPoint.z)
      ensures viewMatrix == old(viewMatrix) && updates == old(updates)
    {
      projectionMatrix := MakeProjection(FovFactor(fov, math), aspectRatio, nearPoint.z, farPoint.z);
    }

    /** `update`: aims `PointAt` at the transformed near normal and stores
        its quick inverse. */
    method Update(math: MathLib)
      requires math.Valid() && math.cos(entity.rot.x) != 0.0
      modifies this
      ensures ViewCurrent(math)
      ensures projectionMatrix == old(projectionMatrix) && updates == old(updates) + 1
      ensures old(Valid(math)) ==> Valid(math)
    {
      var world := entity.GetTransformMatrix(math);
      var target := Matrices.MultiplyVector(NearNormal(), world);
      CameraCanPointAt(entity.pos, entity.rot, math);
      var matCamera := PointAt(entity.pos, target, WorldUp(), math);
      viewMatrix := QuickInverse(matCamera);
      updates := updates + 1;
    }

    /** `translate` followed by the `update` hook. */
    method Translate(vec: Vec3D, math: MathLib)
      requires Valid(math) && math.cos(entity.rot.x) != 0.0
      modifies this, entity
      ensures Valid(math) && ViewCurrent(math)
      ensures entity.pos == Add(old(entity.pos), vec) && entity.rot == old(entity.rot)
      ensures updates == old(updates) + 1
    {
      entity.Translate(vec);
      Update(math);
    }

    /** `rotateX`: the entity turns and updates its view, and only then is
        the pitch clamped to [-pi/2.1, pi/2.1]; the view keeps the
        unclamped angle. */
    method RotateX(rad: real, math: MathLib)
      requires Valid(math) && math.cos(entity.rot.x + Turn(rad, math)) != 0.0
      modifies this, entity
      ensures Valid(math)
      ensures var unclamped := old(entity.rot).x + Turn(rad, math);
        && entity.rot == old(entity.rot).(x := Min(Max(unclamped, -math.pi / 2.1), math.pi / 2.1))
        && viewMatrix == ViewMatrix(entity.pos, old(entity.rot).(x := unclamped), math)
      ensures -math.pi / 2.1 <= entity.rot.x <= math.pi / 2.1
      ensures entity.pos == old(entity.pos) && updates == old(updates) + 1
    {
      entity.RotateX(rad, math);
      Update(math);
      var turned := entity.rot;
      assert Valid(math) && viewMatrix == ViewMatrix(entity.pos, turned, math);
      assert turned == old(entity.rot).(x := old(entity.rot).x + Turn(rad, math)) && entity.pos == old(entity.pos);
      var limit := math.pi / 2.1;
      ClampBounds(turned.x, limit);
      entity.rot := turned.(x := Min(Max(turned.x, -limit), limit));
    }

    /** `rotateY` (inherited) followed by the `update` hook. */
    method RotateY(rad: real, math: MathLib)
      requires Valid(math) && math.cos(entity.rot.x) != 0.0
      modifies this, entity
      ensures Valid(math) && ViewCurrent(math)
      ensures entity.rot == old(entity.rot).(y := old(entity.rot).y + Turn(rad, math))
      ensures entity.pos == old(entity.pos) && updates == old(updates) + 1
    {
      entity.RotateY(rad, math);
      Update(math);
    }

    /** `rotateZ` (inherited) followed by the `update` hook. */
    method RotateZ(rad: real, math: MathLib)
      requires Valid(math) && math.cos(entity.rot.x) != 0.0
      modifies this, entity
      ensures Valid(math) && ViewCurrent(math)
      ensures entity.rot == old(entity.rot).(z := old(entity.rot).z + Turn(rad, math))
      ensures entity.pos == old(entity.pos) && updates == old(updates) + 1
    {
      entity.RotateZ(rad, math);
      Update(math);
    }

    /** `getHorizontalLookDirection`: the viewing direction with the pitch
        taken out, a horizontal unit vector. */
    method GetHorizontalLookDirection(math: MathLib) returns (d: Vec3D)
      requires math.Valid()
      ensures d == ViewDirection(1.0, 0.0, math.cos(entity.rot.y), math.sin(entity.rot.y))
      ensures d.y == 0.0 && Size2(d) == 1.0
    {
      var cy, sy := math.cos(entity.rot.y), math.sin(entity.rot.y);
      d := Matrices.MultiplyVector(NearNormal(), MakeRotationY(cy, sy));
      assert cy * cy + sy * sy == 1.0;
      ViewDirectionUnit(1.0, 0.0, cy, sy);
    }

    /** The view and projection settings `project2D` uses. */
    function CurrentLens(math: MathLib): (r: Lens)
      reads this
      requires ProjectionReady(math)
      ensures r.Ready() && r.view == viewMatrix
      ensures r.near == nearPoint.z && r.far == farPoint.z
    {
      Lens(viewMatrix, FovFactor(fov, math), aspectRatio, nearPoint.z, farPoint.z)
    }

    /** `project2D` with this camera's view and projection: at most four
        triangles, every one between the near and far planes before the
        divide. */
    function ProjectTriangle(tri: Triangles.Tri, math: MathLib): (r: seq<Triangles.Tri>)
      reads this
      requires ProjectionReady(math)
      ensures |r| <= 4
    {
      CurrentLens(math).Project(tri)
    }
  }
}
