/** The indexed mesh of the later version (class `Mesh` in docs/index.js).

    This mesh keeps a vertex list, a texture-coordinate list and one index
    list per face: `[p1, p2, p3]` or `[p1, p2, p3, t1, t2, t3]`. `update`
    transforms the vertices into world space and builds one triangle per
    face; `cullTris` keeps the triangles facing a camera together with their
    normals; `illuminate` sets each triangle's light level.

    An index that is missing or out of range reads `undefined`, and the
    `Tri` constructor then falls back to its default argument: the point
    (0, 0, 0) or the texture coordinate (0, 0, 1). A face of three indices
    therefore has the default texture coordinates. Triangles are values
    here, so `illuminate` rebuilds the list instead of writing `l` into
    shared triangle objects. */
module IndexedMeshes {
  import opened Maths
  import opened Vectors
  import opened Matrices
  import opened Triangles
  import opened Entities
  import Cameras
  import Meshes

  /** `verts[face[k]]`, or the default vertex when that is undefined. */
  function VertexAt(verts: seq<Vec3D>, face: seq<int>, k: nat): Vec3D {
    if k < |face| && 0 <= face[k] < |verts| then verts[face[k]] else Make3D(0.0, 0.0, 0.0)
  }

  /** `uvs[face[k]]`, or the default texture coordinate when undefined. */
  function UvAt(uvs: seq<Vec2D>, face: seq<int>, k: nat): Vec2D {
    if k < |face| && 0 <= face[k] < |uvs| then uvs[face[k]] else Make2D(0.0, 0.0)
  }

  /** `new Tri(verts[p1], verts[p2], verts[p3], uvs[t1], uvs[t2], uvs[t3])`,
      with full light. */
  function FaceTri(verts: seq<Vec3D>, uvs: seq<Vec2D>, face: seq<int>): (r: Tri)
    ensures r.p0 == VertexAt(verts, face, 0) && r.p1 == VertexAt(verts, face, 1) && r.p2 == VertexAt(verts, face, 2)
    ensures r.t0 == UvAt(uvs, face, 3) && r.t1 == UvAt(uvs, face, 4) && r.t2 == UvAt(uvs, face, 5)
    ensures r.l == 1.0
  {
    Tri(VertexAt(verts, face, 0), VertexAt(verts, face, 1), VertexAt(verts, face, 2),
        UvAt(uvs, face, 3), UvAt(uvs, face, 4), UvAt(uvs, face, 5), 1.0)
  }

  /** The vertices in world space: `verts.map(v => MultiplyVector(v, world))`. */
  function WorldVerts(verts: seq<Vec3D>, world: Matrix4): (r: seq<Vec3D>)
    ensures |r| == |verts|
    ensures forall i :: 0 <= i < |r| ==> r[i] == Matrices.MultiplyVector(verts[i], world)
  {
    seq(|verts|, i requires 0 <= i < |verts| => Matrices.MultiplyVector(verts[i], world))
  }

  /** The triangles `update` builds: one per face, in face order. */
  function BuildTris(verts: seq<Vec3D>, uvs: seq<Vec2D>, faces: seq<seq<int>>, world: Matrix4): (r: seq<Tri>)
    ensures |r| == |faces|
    ensures forall i :: 0 <= i < |r| ==> r[i] == FaceTri(WorldVerts(verts, world), uvs, faces[i])
  {
    var worldVerts := WorldVerts(verts, world);
    seq(|faces|, i requires 0 <= i < |faces| => FaceTri(worldVerts, uvs, faces[i]))
  }

  /** Every index of the face names an existing vertex and texture
      coordinate. */
  predicate InRange(verts: seq<Vec3D>, uvs: seq<Vec2D>, face: seq<int>) {
    && |face| == 6
    && (forall k :: 0 <= k < 3 ==> 0 <= face[k] < |verts|)
    && (forall k :: 3 <= k < 6 ==> 0 <= face[k] < |uvs|)
  }

  /** With every index in range, transforming the vertices first and then
      assembling (the indexed mesh) agrees with assembling first and then
      transforming the triangle (the mesh of src/mesh.ts). */
  lemma BuildTrisTransformsFaces(verts: seq<Vec3D>, uvs: seq<Vec2D>, faces: seq<seq<int>>, world: Matrix4, i: nat)
    requires i < |faces| && InRange(verts, uvs, faces[i])
    ensures BuildTris(verts, uvs, faces, world)[i] == Triangles.MultiplyMatrix(FaceTri(verts, uvs, faces[i]), world)
  {
    var wv := WorldVerts(verts, world);
    var face := faces[i];
    assert VertexAt(wv, face, 0) == Matrices.MultiplyVector(VertexAt(verts, face, 0), world);
    assert VertexAt(wv, face, 1) == Matrices.MultiplyVector(VertexAt(verts, face, 1), world);
    assert VertexAt(wv, face, 2) == Matrices.MultiplyVector(VertexAt(verts, face, 2), world);
  }

  /** A vertex index that names nothing leaves the default point in place
      whatever the world matrix: such a vertex does not move with the mesh. */
  lemma MissingVertexStays(verts: seq<Vec3D>, uvs: seq<Vec2D>, faces: seq<seq<int>>, world: Matrix4, i: nat, k: nat)
    requires i < |faces| && k < 3 && !(k < |faces[i]| && 0 <= faces[i][k] < |verts|)
    ensures BuildTris(verts, uvs, faces, world)[i].P(k) == Make3D(0.0, 0.0, 0.0)
  {
  }

  /** Every built triangle has a normal: its edges are not parallel. */
  predicate Solid(tris: seq<Tri>) {
    forall i :: 0 <= i < |tris| ==> Size2(NormalDirection(tris[i])) > 0.0
  }

  /** The light direction: (0.5, 0.5, -1) normalised, in this version. */
  function Light(math: MathLib): (r: Vec3D)
    requires math.Valid()
    ensures Size2(r) == 1.0
  {
    Normalize(Make3D(0.5, 0.5, -1.0), math)
  }

  /** `illuminate`'s light level for a normal: never below 0.1. */
  function LightLevel(normal: Vec3D, math: MathLib): (l: real)
    requires math.Valid()
    ensures l >= 0.1 && l >= DotProduct(Light(math), normal)
    ensures l == 0.1 || l == DotProduct(Light(math), normal)
  {
    Max(0.1, DotProduct(Light(math), normal))
  }

  /** The list `illuminate` leaves: each triangle relit from its normal. */
  function Illuminated(tris: seq<Tri>, normals: seq<Vec3D>, math: MathLib): (r: seq<Tri>)
    requires math.Valid() && |normals| >= |tris|
    ensures |r| == |tris|
    ensures forall i :: 0 <= i < |r| ==> r[i] == tris[i].(l := LightLevel(normals[i], math))
  {
    seq(|tris|, i requires 0 <= i < |tris| => tris[i].(l := LightLevel(normals[i], math)))
  }

  /** Lighting twice is lighting once: the level depends on the normal only. */
  lemma IlluminateIdempotent(tris: seq<Tri>, normals: seq<Vec3D>, math: MathLib)
    requires math.Valid() && |normals| >= |tris|
    ensures Illuminated(Illuminated(tris, normals, math), normals, math) == Illuminated(tris, normals, math)
  {
  }

  /** The entries of `xs` at the indices `backFaceCulling` kept, in order. */
  function Select<T>(xs: seq<T>, kept: seq<Cameras.Facing>): (r: seq<T>)
    requires forall k :: 0 <= k < |kept| ==> kept[k].i < |xs|
    ensures |r| == |kept|
    ensures forall k :: 0 <= k < |r| ==> r[k] == xs[kept[k].i]
  {
    seq(|kept|, k requires 0 <= k < |kept| => xs[kept[k].i])
  }

  /** The constructor builds with the identity: that is what `update`
      builds for an entity at the origin with no rotation. */
  lemma InitialBuildIsUpdate(verts: seq<Vec3D>, uvs: seq<Vec2D>, faces: seq<seq<int>>, math: MathLib)
    requires math.Valid()
    ensures BuildTris(verts, uvs, faces, Transform(Make3D(0.0, 0.0, 0.0), Make3D(0.0, 0.0, 0.0), math))
         == BuildTris(verts, uvs, faces, Identity())
  {
    InitialTransform(Make3D(0.0, 0.0, 0.0), Make3D(0.0, 0.0, 0.0), math);
  }

  class Mesh {
    /** The entity part: position and rotation. */
    const entity: Entity
    const verts: seq<Vec3D>
    const uvs: seq<Vec2D>
    const triIndizes: seq<seq<int>>
    var tris: seq<Tri>
    var normals: seq<Vec3D>
    /** How many times `update` has run. */
    ghost var updates: nat

    /** One normal per triangle, and that normal is the triangle's. */
    ghost predicate Valid(math: MathLib)
      reads this
    {
      && math.Valid()
      && Solid(tris)
      && normals == Meshes.Normals(tris, math)
    }

    /** The triangles the current world matrix yields. */
    function Built(math: MathLib): seq<Tri>
      reads this, entity
    {
      BuildTris(verts, uvs, triIndizes, entity.TransformMatrix(math))
    }

    /** `new Mesh(verts, uvs, triIndizes)`: the entity at the origin with no
        rotation, whose world matrix is the identity, then one `update`. */
    constructor (verts: seq<Vec3D>, uvs: seq<Vec2D>, triIndizes: seq<seq<int>>, math: MathLib)
      requires math.Valid()
      requires Solid(BuildTris(verts, uvs, triIndizes, Identity()))
      ensures Valid(math) && fresh(entity)
      ensures entity.pos == Make3D(0.0, 0.0, 0.0) && entity.rot == Make3D(0.0, 0.0, 0.0)
      ensures this.verts == verts && this.uvs == uvs && this.triIndizes == triIndizes
      ensures tris == BuildTris(verts, uvs, triIndizes, Identity())
      ensures updates == 1
    {
      entity := new Entity(Make3D(0.0, 0.0, 0.0), Make3D(0.0, 0.0, 0.0));
      this.verts := verts;
      this.uvs := uvs;
      this.triIndizes := triIndizes;
      updates := 0;
      new;
      Rebuild(Identity(), math);
    }

    /** `update`: one triangle per face from the world-space vertices, and
        their normals. */
    method Update(math: MathLib)
      requires math.Valid() && Solid(Built(math))
      modifies this
      ensures Valid(math)
      ensures tris == Built(math) && |tris| == |triIndizes|
      ensures updates == old(updates) + 1
    {
      var worldMat := entity.GetTransformMatrix(math);
      Rebuild(worldMat, math);
    }

    /** The work of `update` once the world matrix is known. */
    method Rebuild(world: Matrix4, math: MathLib)
      requires math.Valid() && Solid(BuildTris(verts, uvs, triIndizes, world))
      modifies this
      ensures Valid(math)
      ensures tris == BuildTris(verts, uvs, triIndizes, world)
      ensures updates == old(updates) + 1
    {
      var worldVerts := WorldVerts(verts, world);
      tris := seq(|triIndizes|, i requires 0 <= i < |triIndizes| => FaceTri(worldVerts, uvs, triIndizes[i]));
      normals := Meshes.Normals(tris, math);
      updates := updates + 1;
    }

    /** `cullTris`: keeps the triangles that face the camera, and their
        normals, in the same order and in lockstep. The camera must not
        stand on a triangle's first vertex (see `BackFaceCulling`). */
    method CullTris(camera: Cameras.Camera, math: MathLib)
      requires Valid(math)
      requires forall i :: 0 <= i < |tris| ==> Size2(Subtract(tris[i].p0, camera.entity.pos)) > 0.0
      modifies this
      ensures Valid(math)
      ensures var kept := Cameras.BackFaceCulling(old(tris), old(normals), camera.entity.pos, math);
        && tris == Select(old(tris), kept) && normals == Select(old(normals), kept)
      ensures forall i :: 0 <= i < |old(tris)| ==>
        (Meshes.Facing(old(tris)[i], old(normals)[i], camera.entity.pos) <==> old(tris)[i] in tris)
      ensures forall k :: 0 <= k < |tris| ==> Meshes.Facing(tris[k], normals[k], camera.entity.pos)
      ensures updates == old(updates)
    {
      var pos := camera.entity.pos;
      var visible := Cameras.BackFaceCulling(tris, normals, pos, math);
      ghost var t0, n0 := tris, normals;
      normals := Select(normals, visible);
      tris := Select(tris, visible);
      CulledInLockstep(t0, n0, visible, pos, math);
    }

    /** `illuminate`: each triangle's light level becomes
        max(0.1, light . normal); nothing else changes. */
    method Illuminate(math: MathLib)
      requires Valid(math)
      modifies this
      ensures Valid(math)
      ensures normals == old(normals) && tris == Illuminated(old(tris), normals, math)
      ensures forall i :: 0 <= i < |tris| ==> tris[i].l >= 0.1
      ensures updates == old(updates)
    {
      ghost var t0 := tris;
      tris := Illuminated(tris, normals, math);
      RelitKeepsNormals(t0, normals, math);
    }
  }

  /** Selecting the same entries of the triangles and of their normals keeps
      each normal with its triangle. */
  lemma SelectedNormals(tris: seq<Tri>, normals: seq<Vec3D>, kept: seq<Cameras.Facing>, math: MathLib)
    requires math.Valid() && Solid(tris) && normals == Meshes.Normals(tris, math)
    requires forall k :: 0 <= k < |kept| ==> kept[k].i < |tris|
    ensures Solid(Select(tris, kept))
    ensures Select(normals, kept) == Meshes.Normals(Select(tris, kept), math)
  {
    var st, sn := Select(tris, kept), Select(normals, kept);
    forall k | 0 <= k < |kept|
      ensures Size2(NormalDirection(st[k])) > 0.0 && sn[k] == GetNormal(st[k], math)
    {
      assert st[k] == tris[kept[k].i] && sn[k] == normals[kept[k].i];
    }
  }

  /** Every entry the culling kept faces the camera. */
  lemma KeptFace(tris: seq<Tri>, normals: seq<Vec3D>, kept: seq<Cameras.Facing>, pos: Vec3D, math: MathLib)
    requires math.Valid() && |normals| == |tris|
    requires forall i :: 0 <= i < |tris| ==> Size2(Subtract(tris[i].p0, pos)) > 0.0
    requires kept == Cameras.BackFaceCulling(tris, normals, pos, math)
    ensures forall k :: 0 <= k < |kept| ==> Meshes.Facing(tris[kept[k].i], normals[kept[k].i], pos)
  {
    forall k | 0 <= k < |kept|
      ensures Meshes.Facing(tris[kept[k].i], normals[kept[k].i], pos)
    {
      var j := kept[k].i;
      assert exists k' :: 0 <= k' < |kept| && kept[k'].i == j;
    }
  }

  /** A triangle that faces the camera survives the culling. */
  lemma FacingKept(tris: seq<Tri>, normals: seq<Vec3D>, kept: seq<Cameras.Facing>, pos: Vec3D, math: MathLib)
    requires math.Valid() && |normals| == |tris|
    requires forall i :: 0 <= i < |tris| ==> Size2(Subtract(tris[i].p0, pos)) > 0.0
    requires kept == Cameras.BackFaceCulling(tris, normals, pos, math)
    ensures forall i :: 0 <= i < |tris| && Meshes.Facing(tris[i], normals[i], pos) ==> tris[i] in Select(tris, kept)
  {
    var st := Select(tris, kept);
    forall i | 0 <= i < |tris| && Meshes.Facing(tris[i], normals[i], pos)
      ensures tris[i] in st
    {
      var k :| 0 <= k < |kept| && kept[k].i == i;
      assert st[k] == tris[i];
    }
  }

  /** A triangle equal to one that survived faces the camera: equal
      triangles have equal normals. */
  lemma KeptFacing(tris: seq<Tri>, normals: seq<Vec3D>, kept: seq<Cameras.Facing>, pos: Vec3D, math: MathLib)
    requires math.Valid() && Solid(tris) && normals == Meshes.Normals(tris, math)
    requires forall k :: 0 <= k < |kept| ==> kept[k].i < |tris| && Meshes.Facing(tris[kept[k].i], normals[kept[k].i], pos)
    ensures forall i :: 0 <= i < |tris| && tris[i] in Select(tris, kept) ==> Meshes.Facing(tris[i], normals[i], pos)
  {
    var st := Select(tris, kept);
    forall i | 0 <= i < |tris| && tris[i] in st
      ensures Meshes.Facing(tris[i], normals[i], pos)
    {
      var k :| 0 <= k < |st| && st[k] == tris[i];
      var j := kept[k].i;
      assert Meshes.Facing(tris[j], normals[j], pos);
      assert normals[j] == GetNormal(tris[i], math) == normals[i];
    }
  }

  /** The culled lists are again one solid triangle per normal, each facing
      the camera, and a triangle survives exactly when it faces the camera. */
  lemma CulledInLockstep(tris: seq<Tri>, normals: seq<Vec3D>, kept: seq<Cameras.Facing>, pos: Vec3D, math: MathLib)
    requires math.Valid() && Solid(tris) && normals == Meshes.Normals(tris, math)
    requires forall i :: 0 <= i < |tris| ==> Size2(Subtract(tris[i].p0, pos)) > 0.0
    requires kept == Cameras.BackFaceCulling(tris, normals, pos, math)
    ensures Solid(Select(tris, kept)) && Select(normals, kept) == Meshes.Normals(Select(tris, kept), math)
    ensures forall k :: 0 <= k < |kept| ==> Meshes.Facing(Select(tris, kept)[k], Select(normals, kept)[k], pos)
    ensures forall i :: 0 <= i < |tris| ==> (Meshes.Facing(tris[i], normals[i], pos) <==> tris[i] in Select(tris, kept))
  {
    SelectedNormals(tris, normals, kept, math);
    KeptFace(tris, normals, kept, pos, math);
    FacingKept(tris, normals, kept, pos, math);
    KeptFacing(tris, normals, kept, pos, math);
  }

  /** Relighting keeps the vertices, so the normals still match. */
  lemma RelitKeepsNormals(tris: seq<Tri>, normals: seq<Vec3D>, math: MathLib)
    requires math.Valid() && Solid(tris) && normals == Meshes.Normals(tris, math)
    ensures Solid(Illuminated(tris, normals, math))
    ensures normals == Meshes.Normals(Illuminated(tris, normals, math), math)
  {
    var r := Illuminated(tris, normals, math);
    forall i | 0 <= i < |tris|
      ensures NormalDirection(r[i]) == NormalDirection(tris[i]) && GetNormal(r[i], math) == GetNormal(tris[i], math)
    {
      assert r[i].p0 == tris[i].p0 && r[i].p1 == tris[i].p1 && r[i].p2 == tris[i].p2;
    }
  }
}
