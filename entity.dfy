/** Objects placed in the world (src/entity.ts).

    An entity has a position and three rotation angles. Its mutators change
    one of them; in the source each then calls the subclass's `update` hook.
    Here the camera and the mesh own an `Entity` and call their own `Update`
    right after the entity's mutator, which keeps that order. The angles'
    sines and cosines come from the `MathLib` the caller passes. */
module Entities {
  import opened Maths
  import opened Vectors
  import opened Matrices

  /** The world matrix from the position and the cosine/sine pairs of the
      three angles: (RotZ * RotX) * (RotY * Trans), the order of
      `getTransformMatrix`. */
  function WorldMatrix(pos: Vec3D, cx: real, sx: real, cy: real, sy: real, cz: real, sz: real): Matrix4 {
    Product(
      Product(MakeRotationZ(cz, sz), MakeRotationX(cx, sx)),
      Product(MakeRotationY(cy, sy), MakeTranslation(pos)))
  }

  /** `getTransformMatrix` for the angles in `rot`. */
  function Transform(pos: Vec3D, rot: Vec3D, math: MathLib): Matrix4 {
    WorldMatrix(pos, math.cos(rot.x), math.sin(rot.x), math.cos(rot.y), math.sin(rot.y),
                math.cos(rot.z), math.sin(rot.z))
  }

  /** A point is transformed by rotating about z, then x, then y, then
      translating: the product is the sequence of the four transforms. */
  lemma WorldMatrixSequential(p: Vec3D, pos: Vec3D, cx: real, sx: real, cy: real, sy: real, cz: real, sz: real)
    ensures MultiplyVector(p, WorldMatrix(pos, cx, sx, cy, sy, cz, sz))
         == MultiplyVector(MultiplyVector(MultiplyVector(MultiplyVector(p, MakeRotationZ(cz, sz)),
              MakeRotationX(cx, sx)), MakeRotationY(cy, sy)), MakeTranslation(pos))
  {
    var zx := Product(MakeRotationZ(cz, sz), MakeRotationX(cx, sx));
    var yt := Product(MakeRotationY(cy, sy), MakeTranslation(pos));
    MultiplyVectorProduct(p, zx, yt);
    MultiplyVectorProduct(p, MakeRotationZ(cz, sz), MakeRotationX(cx, sx));
    MultiplyVectorProduct(MultiplyVector(p, zx), MakeRotationY(cy, sy), MakeTranslation(pos));
  }

  /** With every angle zero (cosine 1, sine 0) the world matrix is the
      translation to the position. */
  lemma WorldMatrixNoRotation(pos: Vec3D)
    ensures WorldMatrix(pos, 1.0, 0.0, 1.0, 0.0, 1.0, 0.0) == MakeTranslation(pos)
  {
    assert MakeRotationX(1.0, 0.0) == Identity();
    assert MakeRotationY(1.0, 0.0) == Identity();
    assert MakeRotationZ(1.0, 0.0) == Identity();
    ProductIdentity(Identity());
    ProductIdentity(MakeTranslation(pos));
  }

  /** An entity at the origin with no rotation has the identity as its
      world matrix. */
  lemma InitialTransform(pos: Vec3D, rot: Vec3D, math: MathLib)
    requires math.Valid() && pos == Make3D(0.0, 0.0, 0.0) && rot == Make3D(0.0, 0.0, 0.0)
    ensures Transform(pos, rot, math) == Identity()
  {
    WorldMatrixNoRotation(pos);
  }

  /** The amount `rotateX`/`Y`/`Z` add to an angle: `rad % Math.PI`, which
      keeps the sign of rad and is smaller than pi in size. */
  function Turn(rad: real, math: MathLib): (d: real)
    requires math.Valid()
    ensures -math.pi < d < math.pi
    ensures 0.0 <= rad ==> 0.0 <= d
    ensures rad <= 0.0 ==> d <= 0.0
  {
    TruncRemBounds(rad, math.pi);
    TruncRem(rad, math.pi)
  }

  class Entity {
    var pos: Vec3D
    var rot: Vec3D

    /** `new Entity(pos, rot)`. */
    constructor (pos: Vec3D, rot: Vec3D)
      ensures this.pos == pos && this.rot == rot
    {
      this.pos := pos;
      this.rot := rot;
    }

    /** `translate`: the position moves by vec; its w becomes 1. */
    method Translate(vec: Vec3D)
      modifies this
      ensures pos == Add(old(pos), vec) && pos.w == 1.0
      ensures rot == old(rot)
    {
      pos := Add(pos, vec);
    }

    /** `rotateX`: rot.x grows by `rad % Math.PI`; the sum itself is not
        wrapped. */
    method RotateX(rad: real, math: MathLib)
      requires math.Valid()
      modifies this
      ensures rot == old(rot).(x := old(rot).x + Turn(rad, math))
      ensures pos == old(pos)
    {
      rot := rot.(x := rot.x + TruncRem(rad, math.pi));
    }

    method RotateY(rad: real, math: MathLib)
      requires math.Valid()
      modifies this
      ensures rot == old(rot).(y := old(rot).y + Turn(rad, math))
      ensures pos == old(pos)
    {
      rot := rot.(y := rot.y + TruncRem(rad, math.pi));
    }

    method RotateZ(rad: real, math: MathLib)
      requires math.Valid()
      modifies this
      ensures rot == old(rot).(z := old(rot).z + Turn(rad, math))
      ensures pos == old(pos)
    {
      rot := rot.(z := rot.z + TruncRem(rad, math.pi));
    }

    /** The current world matrix. */
    function TransformMatrix(math: MathLib): Matrix4
      reads this
    {
      Transform(pos, rot, math)
    }

    /** `getTransformMatrix`: builds the four matrices and multiplies them
        with `MultiplyMatrix`. */
    method GetTransformMatrix(math: MathLib) returns (m: Matrix4)
      ensures m == TransformMatrix(math)
    {
      var matRotX := MakeRotationX(math.cos(rot.x), math.sin(rot.x));
      var matRotY := MakeRotationY(math.cos(rot.y), math.sin(rot.y));
      var matRotZ := MakeRotationZ(math.cos(rot.z), math.sin(rot.z));
      var matTrans := MakeTranslation(pos);
      var zx := MultiplyMatrix(matRotZ, matRotX);
      var yt := MultiplyMatrix(matRotY, matTrans);
      m := MultiplyMatrix(zx, yt);
    }
  }
}
