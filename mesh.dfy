/** A mesh of triangles (src/mesh.ts).

    The mesh keeps its triangles as loaded (`rawTris`) and, in world space,
    the transformed triangles with their normals. `projectTris` shades the
    triangles that face the camera, caching each triangle's colour until the
    next `update`, and projects them with the camera.

    The source tests facing with `camera.isFacingTowards`, which the camera
    does not define; the model uses the test of `backFaceCulling`: the
    normal points against the direction from the camera to the first vertex.
    `Object.assign(tri, { lit })` tags the world-space triangle with its
    colour; triangles are values here, so those tags are the mesh's `lit`
    sequence, reset whenever `update` rebuilds the triangles. */
module Meshes {
  import opened Maths
  import opened Vectors
  import opened Matrices
  import opened Triangles
  import opened Entities
  import Cameras

  /** The light direction, (0.5, 0.5, -1), not normalised in this version. */
  function Light(): Vec3D { Make3D(0.5, 0.5, -1.0) }

  /** The base colour, white. */
  function Color(): Vec3D { Make3D(255.0, 255.0, 255.0) }

  /** `Math.max(0.1, light . normal)`: never below 0.1. */
  function Luminance(normal: Vec3D): (l: real)
    ensures l >= 0.1 && l >= DotProduct(Light(), normal)
    ensures l == 0.1 || l == DotProduct(Light(), normal)
  {
    Max(0.1, DotProduct(Light(), normal))
  }

  /** The colour cached for a triangle: white scaled by its luminance, so
      each channel is at least 25.5. */
  function Shade(normal: Vec3D): (c: Vec3D)
    ensures c.x == c.y == c.z == 255.0 * Luminance(normal)
    ensures c.x >= 25.5
  {
    Vectors.MultiplyConst(Color(), Luminance(normal))
  }

  /** The facing test: the normal points back towards the camera. */
  predicate Facing(tri: Tri, normal: Vec3D, camPos: Vec3D) {
    DotProduct(normal, Subtract(tri.p0, camPos)) < 0.0
  }

  /** Every raw triangle stays non-degenerate under `world`, so each has a
      normal. */
  predicate Solid(rawTris: seq<Tri>, world: Matrix4) {
    forall i :: 0 <= i < |rawTris| ==> Size2(NormalDirection(Triangles.MultiplyMatrix(rawTris[i], world))) > 0.0
  }

  /** The triangles in world space. */
  function WorldTris(rawTris: seq<Tri>, world: Matrix4): (r: seq<Tri>)
    ensures |r| == |rawTris|
    ensures forall i :: 0 <= i < |r| ==> r[i] == Triangles.MultiplyMatrix(rawTris[i], world)
  {
    seq(|rawTris|, i requires 0 <= i < |rawTris| => Triangles.MultiplyMatrix(rawTris[i], world))
  }

  /** `tris.map(Tri.GetNormal)`. */
  function Normals(tris: seq<Tri>, math: MathLib): (r: seq<Vec3D>)
    requires math.Valid() && forall i :: 0 <= i < |tris| ==> Size2(NormalDirection(tris[i])) > 0.0
    ensures |r| == |tris|
    ensures forall i :: 0 <= i < |r| ==> r[i] == GetNormal(tris[i], math)
  {
    seq(|tris|, i requires 0 <= i < |tris| => GetNormal(tris[i], math))
  }

  /** One cache slot after `projectTris` visits its triangle: computed
      when empty and the triangle faces the camera, kept otherwise. */
  function CachedEntry(c: Option<Vec3D>, tri: Tri, normal: Vec3D, camPos: Vec3D): Option<Vec3D> {
    if c.None? && Facing(tri, normal, camPos) then Some(Shade(normal)) else c
  }

  /** One `lit` tag after the visit: a facing triangle carries its cached
      colour, another keeps its tag. */
  function TagEntry(l: Option<Vec3D>, c: Option<Vec3D>, tri: Tri, normal: Vec3D, camPos: Vec3D): Option<Vec3D> {
    if Facing(tri, normal, camPos) then c else l
  }

  /** The colour cache after one `projectTris`. */
  function Cached(colors: seq<Option<Vec3D>>, tris: seq<Tri>, normals: seq<Vec3D>, camPos: Vec3D): (r: seq<Option<Vec3D>>)
    requires |tris| == |colors| && |normals| >= |tris|
    ensures |r| == |colors|
    ensures forall i :: 0 <= i < |r| ==> r[i] == CachedEntry(colors[i], tris[i], normals[i], camPos)
  {
    seq(|colors|, i requires 0 <= i < |colors| => CachedEntry(colors[i], tris[i], normals[i], camPos))
  }

  /** The `lit` tags after one `projectTris`. */
  function Tagged(lit: seq<Option<Vec3D>>, colors: seq<Option<Vec3D>>, tris: seq<Tri>, normals: seq<Vec3D>, camPos: Vec3D): (r: seq<Option<Vec3D>>)
    requires |tris| == |colors| == |lit| && |normals| >= |tris|
    ensures |r| == |lit|
    ensures forall i :: 0 <= i < |r| ==> r[i] == TagEntry(lit[i], colors[i], tris[i], normals[i], camPos)
  {
    seq(|lit|, i requires 0 <= i < |lit| => TagEntry(lit[i], colors[i], tris[i], normals[i], camPos))
  }

  /** What `projectTris` returns: the projections of the facing triangles,
      concatenated in triangle order. */
  function ProjectFacing(tris: seq<Tri>, normals: seq<Vec3D>, camPos: Vec3D, lens: Cameras.Lens): (r: seq<Tri>)
    requires lens.Ready() && |normals| >= |tris|
    ensures |r| <= 4 * |tris|
  {
    if |tris| == 0 then []
    else
      var n := |tris| - 1;
      ProjectFacing(tris[..n], normals, camPos, lens)
        + if Facing(tris[n], normals[n], camPos) then lens.Project(tris[n]) else []
  }

  /** `Cached` is determined entry by entry. */
  lemma CachedPointwise(colors: seq<Option<Vec3D>>, r: seq<Option<Vec3D>>, tris: seq<Tri>, normals: seq<Vec3D>, camPos: Vec3D)
    requires |tris| == |colors| == |r| && |normals| >= |tris|
    requires forall i :: 0 <= i < |r| ==> r[i] == CachedEntry(colors[i], tris[i], normals[i], camPos)
    ensures r == Cached(colors, tris, normals, camPos)
  {
  }

  /** `Tagged` is determined entry by entry. */
  lemma TaggedPointwise(lit: seq<Option<Vec3D>>, r: seq<Option<Vec3D>>, colors: seq<Option<Vec3D>>, tris: seq<Tri>, normals: seq<Vec3D>, camPos: Vec3D)
    requires |tris| == |colors| == |lit| == |r| && |normals| >= |tris|
    requires forall i :: 0 <= i < |r| ==> r[i] == TagEntry(lit[i], colors[i], tris[i], normals[i], camPos)
    ensures r == Tagged(lit, colors, tris, normals, camPos)
  {
  }

  /** A cache entry, once computed, is reused: a second pass over the same
      triangles changes nothing, and every computed entry is the shade of
      its normal, at least 25.5 in each channel. */
  lemma {:induction false} CachedIdempotent(colors: seq<Option<Vec3D>>, tris: seq<Tri>, normals: seq<Vec3D>, camPos: Vec3D)
    requires |tris| == |colors| && |normals| >= |tris|
    ensures Cached(Cached(colors, tris, normals, camPos), tris, normals, camPos) == Cached(colors, tris, normals, camPos)
    ensures forall i :: 0 <= i < |colors| && colors[i].None? && Cached(colors, tris, normals, camPos)[i].Some? ==>
      Cached(colors, tris, normals, camPos)[i].value.x >= 25.5
  {
    var once := Cached(colors, tris, normals, camPos);
    var twice := Cached(once, tris, normals, camPos);
    forall i | 0 <= i < |colors|
      ensures twice[i] == once[i]
    {
      if colors[i].None? && Facing(tris[i], normals[i], camPos) {
        assert once[i].Some?;
      }
    }
  }

  /** One more triangle appends its own output, if any. */
  lemma ProjectFacingStep(tris: seq<Tri>, normals: seq<Vec3D>, camPos: Vec3D, lens: Cameras.Lens, i: nat)
    requires lens.Ready() && |normals| >= |tris| && i < |tris|
    ensures ProjectFacing(tris[..i + 1], normals, camPos, lens) == ProjectFacing(tris[..i], normals, camPos, lens)
      + if Facing(tris[i], normals[i], camPos) then lens.Project(tris[i]) else []
  {
    assert tris[..i + 1][..i] == tris[..i];
  }

  /** Triangles that do not face the camera contribute nothing. */
  lemma {:induction false} NoneFacingNothingProjected(tris: seq<Tri>, normals: seq<Vec3D>, camPos: Vec3D, lens: Cameras.Lens)
    requires lens.Ready() && |normals| >= |tris|
    requires forall i :: 0 <= i < |tris| ==> !Facing(tris[i], normals[i], camPos)
    ensures ProjectFacing(tris, normals, camPos, lens) == []
  {
    if |tris| > 0 {
      var n := |tris| - 1;
      NoneFacingNothingProjected(tris[..n], normals, camPos, lens);
    }
  }

  /** Under a pure translation (the world matrix of an unrotated mesh,
      `WorldMatrixNoRotation`) every vertex with w = 1 moves by the
      position, and texture and light are unchanged. */
  lemma WorldTrisTranslated(rawTris: seq<Tri>, pos: Vec3D, i: nat, j: nat)
    requires i < |rawTris| && j < 3 && rawTris[i].P(j).w == 1.0
    ensures WorldTris(rawTris, MakeTranslation(pos))[i].P(j) == Add(rawTris[i].P(j), pos)
    ensures SameTexAndLight(WorldTris(rawTris, MakeTranslation(pos))[i], rawTris[i])
  {
    TranslationMovesPoint(rawTris[i].P(j), pos);
  }

  /** The body of `projectTris` for one triangle: the back-face test, the
      cache fill on a miss and the `lit` tag. */
  method Visit(c: Option<Vec3D>, l: Option<Vec3D>, tri: Tri, normal: Vec3D, camPos: Vec3D)
    returns (c': Option<Vec3D>, l': Option<Vec3D>, facing: bool)
    ensures facing <==> Facing(tri, normal, camPos)
    ensures c' == CachedEntry(c, tri, normal, camPos)
    ensures l' == TagEntry(l, c', tri, normal, camPos)
    ensures facing ==> c'.Some? && l' == c'
  {
    c', l' := c, l;
    facing := DotProduct(normal, Subtract(tri.p0, camPos)) < 0.0;
    if facing {
      if c'.None? {
        var luminance := Max(0.1, DotProduct(Light(), normal));
        c' := Some(Vectors.MultiplyConst(Color(), luminance));
      }
      l' := c';
    }
  }

  /** The loop of `projectTris` over the mesh's triangles `ts`, normals
      `ns`, colour cache `c0` and tags `l0`; the cache and the tags are
      updated in local copies that the mesh stores back at the end, which
      nothing can observe in between. */
  method VisitTris(ts: seq<Tri>, ns: seq<Vec3D>, c0: seq<Option<Vec3D>>, l0: seq<Option<Vec3D>>,
                    camPos: Vec3D, lens: Cameras.Lens)
    returns (list: seq<Tri>, cache: seq<Option<Vec3D>>, tags: seq<Option<Vec3D>>)
    requires lens.Ready() && |ts| == |ns| == |c0| == |l0|
    ensures list == ProjectFacing(ts, ns, camPos, lens)
    ensures cache == Cached(c0, ts, ns, camPos)
    ensures tags == Tagged(l0, cache, ts, ns, camPos)
  {
    cache, tags := c0, l0;
    list := [];
    var index := 0;
    while index < |ts|
      invariant 0 <= index <= |ts| && |cache| == |tags| == |ts|
      invariant list == ProjectFacing(ts[..index], ns, camPos, lens)
      invariant Visited(index, cache, tags, c0, l0, ts, ns, camPos)
    {
      var tri := ts[index];
      var c, l, facing := Visit(cache[index], tags[index], tri, ns[index], camPos);
      VisitedStep(index, cache, tags, c, l, c0, l0, ts, ns, camPos);
      cache, tags := cache[index := c], tags[index := l];
      if facing {
        list := list + lens.Project(tri);
      }
      ProjectFacingStep(ts, ns, camPos, lens, index);
      index := index + 1;
    }
    assert ts[..index] == ts;
    VisitedAll(cache, tags, c0, l0, ts, ns, camPos);
  }

  /** After visiting the first `i` triangles: those slots hold their
      `CachedEntry` and `TagEntry`, the rest are as they were. */
  predicate Visited(i: nat, cache: seq<Option<Vec3D>>, tags: seq<Option<Vec3D>>, c0: seq<Option<Vec3D>>, l0: seq<Option<Vec3D>>,
                    ts: seq<Tri>, ns: seq<Vec3D>, camPos: Vec3D)
    requires i <= |ts| == |ns| == |c0| == |l0| == |cache| == |tags|
  {
    && (forall k :: 0 <= k < i ==> cache[k] == CachedEntry(c0[k], ts[k], ns[k], camPos))
    && (forall k :: 0 <= k < i ==> tags[k] == TagEntry(l0[k], cache[k], ts[k], ns[k], camPos))
    && (forall k :: i <= k < |ts| ==> cache[k] == c0[k] && tags[k] == l0[k])
  }

  lemma VisitedStep(i: nat, cache: seq<Option<Vec3D>>, tags: seq<Option<Vec3D>>, c: Option<Vec3D>, l: Option<Vec3D>,
                    c0: seq<Option<Vec3D>>, l0: seq<Option<Vec3D>>, ts: seq<Tri>, ns: seq<Vec3D>, camPos: Vec3D)
    requires i < |ts| == |ns| == |c0| == |l0| == |cache| == |tags|
    requires Visited(i, cache, tags, c0, l0, ts, ns, camPos)
    requires c == CachedEntry(cache[i], ts[i], ns[i], camPos) && l == TagEntry(tags[i], c, ts[i], ns[i], camPos)
    ensures Visited(i + 1, cache[i := c], tags[i := l], c0, l0, ts, ns, camPos)
  {
  }

  lemma VisitedAll(cache: seq<Option<Vec3D>>, tags: seq<Option<Vec3D>>, c0: seq<Option<Vec3D>>, l0: seq<Option<Vec3D>>,
                   ts: seq<Tri>, ns: seq<Vec3D>, camPos: Vec3D)
    requires |ts| == |ns| == |c0| == |l0| == |cache| == |tags|
    requires Visited(|ts|, cache, tags, c0, l0, ts, ns, camPos)
    ensures cache == Cached(c0, ts, ns, camPos) && tags == Tagged(l0, cache, ts, ns, camPos)
  {
    CachedPointwise(c0, cache, ts, ns, camPos);
    TaggedPointwise(l0, tags, cache, ts, ns, camPos);
  }

  class Mesh {
    /** The entity part: position and rotation. */
    const entity: Entity
    const rawTris: seq<Tri>
    var tris: seq<Tri>
    var normals: seq<Vec3D>
    /** The colour cache; `None` is an empty slot of `new Array(n)`. */
    var colors: seq<Option<Vec3D>>
    /** The colour each world-space triangle was tagged with. */
    var lit: seq<Option<Vec3D>>
    /** How many times `update` has run. */
    ghost var updates: nat

    /** One triangle, normal, cache slot and tag per raw triangle. */
    predicate Valid()
      reads this
    {
      |tris| == |normals| == |colors| == |lit| == |rawTris|
    }

    /** `new Mesh(rawTris)`: the entity at the origin with no rotation, the
        raw triangles as the world-space ones, their normals and an empty
        cache. The constructor does not call `update`. */
    constructor (rawTris: seq<Tri>, math: MathLib)
      requires math.Valid() && forall i :: 0 <= i < |rawTris| ==> Size2(NormalDirection(rawTris[i])) > 0.0
      ensures Valid()
      ensures entity.pos == Make3D(0.0, 0.0, 0.0) && entity.rot == Make3D(0.0, 0.0, 0.0) && fresh(entity)
      ensures this.rawTris == rawTris && tris == rawTris && normals == Normals(rawTris, math)
      ensures forall i :: 0 <= i < |rawTris| ==> colors[i].None? && lit[i].None?
      ensures updates == 0
    {
      entity := new Entity(Make3D(0.0, 0.0, 0.0), Make3D(0.0, 0.0, 0.0));
      this.rawTris := rawTris;
      tris := rawTris;
      normals := Normals(rawTris, math);
      colors := seq(|rawTris|, _ => None);
      lit := seq(|rawTris|, _ => None);
      updates := 0;
    }

    /** `update`: rebuilds the world-space triangles from the raw ones with
        the entity's world matrix, recomputes the normals and empties the
        colour cache. */
    method Update(math: MathLib)
      requires math.Valid() && Solid(rawTris, entity.TransformMatrix(math))
      modifies this
      ensures Valid()
      ensures tris == WorldTris(rawTris, entity.TransformMatrix(math))
      ensures forall i :: 0 <= i < |tris| ==> Size2(NormalDirection(tris[i])) > 0.0
      ensures normals == Normals(tris, math)
      ensures forall i :: 0 <= i < |rawTris| ==> colors[i].None? && lit[i].None?
      ensures updates == old(updates) + 1
    {
      var worldMat := entity.GetTransformMatrix(math);
      tris := WorldTris(rawTris, worldMat);
      normals := Normals(tris, math);
      colors := seq(|rawTris|, _ => None);
      lit := seq(|rawTris|, _ => None);
      updates := updates + 1;
    }

    /** `translate` followed by the `update` hook. */
    method Translate(vec: Vec3D, math: MathLib)
      requires math.Valid()
      requires Solid(rawTris, Transform(Add(entity.pos, vec), entity.rot, math))
      modifies this, entity
      ensures Valid()
      ensures entity.pos == Add(old(entity.pos), vec) && entity.rot == old(entity.rot)
      ensures tris == WorldTris(rawTris, entity.TransformMatrix(math))
      ensures normals == Normals(tris, math)
      ensures forall i :: 0 <= i < |rawTris| ==> colors[i].None? && lit[i].None?
      ensures updates == old(updates) + 1
    {
      entity.Translate(vec);
      Update(math);
    }

    /** `rotateX` followed by the `update` hook; `rotateY` and `rotateZ`
        are alike. */
    method RotateX(rad: real, math: MathLib)
      requires math.Valid()
      requires Solid(rawTris, Transform(entity.pos, entity.rot.(x := entity.rot.x + Turn(rad, math)), math))
      modifies this, entity
      ensures Valid()
      ensures entity.rot == old(entity.rot).(x := old(entity.rot).x + Turn(rad, math)) && entity.pos == old(entity.pos)
      ensures tris == WorldTris(rawTris, entity.TransformMatrix(math))
      ensures normals == Normals(tris, math)
      ensures forall i :: 0 <= i < |rawTris| ==> colors[i].None? && lit[i].None?
      ensures updates == old(updates) + 1
    {
      entity.RotateX(rad, math);
      Update(math);
    }

    method RotateY(rad: real, math: MathLib)
      requires math.Valid()
      requires Solid(rawTris, Transform(entity.pos, entity.rot.(y := entity.rot.y + Turn(rad, math)), math))
      modifies this, entity
      ensures Valid()
      ensures entity.rot == old(entity.rot).(y := old(entity.rot).y + Turn(rad, math)) && entity.pos == old(entity.pos)
      ensures tris == WorldTris(rawTris, entity.TransformMatrix(math))
      ensures normals == Normals(tris, math)
      ensures forall i :: 0 <= i < |rawTris| ==> colors[i].None? && lit[i].None?
      ensures updates == old(updates) + 1
    {
      entity.RotateY(rad, math);
      Update(math);
    }

    method RotateZ(rad: real, math: MathLib)
      requires math.Valid()
      requires Solid(rawTris, Transform(entity.pos, entity.rot.(z := entity.rot.z + Turn(rad, math)), math))
      modifies this, entity
      ensures Valid()
      ensures entity.rot == old(entity.rot).(z := old(entity.rot).z + Turn(rad, math)) && entity.pos == old(entity.pos)
      ensures tris == WorldTris(rawTris, entity.TransformMatrix(math))
      ensures normals == Normals(tris, math)
      ensures forall i :: 0 <= i < |rawTris| ==> colors[i].None? && lit[i].None?
      ensures updates == old(updates) + 1
    {
      entity.RotateZ(rad, math);
      Update(math);
    }

    /** `projectTris`: walks the triangles in order (`VisitTris`); for each
        one facing the camera it fills the empty cache slot, tags the
        triangle and appends its projection. */
    method ProjectTris(camera: Cameras.Camera, math: MathLib) returns (list: seq<Tri>)
      requires Valid() && camera.ProjectionReady(math)
      modifies this
      ensures Valid()
      ensures list == ProjectFacing(tris, normals, camera.entity.pos, camera.CurrentLens(math))
      ensures colors == Cached(old(colors), tris, normals, camera.entity.pos)
      ensures lit == Tagged(old(lit), colors, tris, normals, camera.entity.pos)
      ensures tris == old(tris) && normals == old(normals) && updates == old(updates)
    {
      list, colors, lit := VisitTris(tris, normals, colors, lit, camera.entity.pos, camera.CurrentLens(math));
    }
  }
}
