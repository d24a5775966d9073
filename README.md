# A verified model of a software 3D renderer

This project is a Dafny model of a small TypeScript renderer that draws
textured triangle meshes with no GPU help. A mesh's triangles go through these
steps:

1. They are moved into world space by their entity's rotation and
   translation.
2. Triangles that face away from the camera are culled, and the rest are lit.
3. They are transformed into view space, clipped against the near and far
   planes, and projected with a perspective divide.
4. They are clipped against the four edges of the screen.
5. A scanline rasterizer draws them into a depth-tested pixel buffer.

The model covers:

- the 3D/2D homogeneous vector helpers and the 4x4 row-vector matrices;
- triangle/plane clipping;
- the entity and camera transform state;
- both versions of the mesh (a flat triangle list, and a later indexed mesh
  with a packed-pixel canvas);
- both versions of the textured-triangle rasterizer;
- the seven-slot render pipeline with its toggles;
- the matrix helpers and cube data of the first prototype.

Numbers are exact `real`s. `Math.sin`, `Math.cos`, `Math.tan`, `Math.sqrt` and
`Math.PI` are fields of a `MathLib` value passed as a parameter and
constrained by `MathLib.Valid()` (sin² + cos² = 1, sqrt of a positive square,
π > 0, the values at 0, and cosine positive below π/2).

`Math.round`, `Math.floor`, `Math.trunc` and the truncating `%` operator are
defined exactly. Triangles and vectors are immutable datatypes. Objects whose
fields the source updates in place are classes:

- `Entity`, `Camera` and the two `Mesh` classes;
- `Canvas` and `ImageCanvas`, whose depth and pixel buffers are arrays;
- `RenderPipeline`, whose slots are an array;
- the swap cells.

Each rasterizer method is proved against a ghost list of pixel fragments and
the fold `ApplyAll` over it. The lemmas about fragments and folds state what
the drawing does.

Modules and source files:

- `Maths`: numeric helpers.
- `Vectors`: `src/vector.ts`.
- `Matrices`: `src/matrix.ts`.
- `Triangles`: `src/tri.ts`, and the copying clip of `docs/index.js`.
- `Entities`: `src/entity.ts`.
- `Cameras`: `src/camera.ts`.
- `Meshes`: `src/mesh.ts`.
- `IndexedMeshes`: the `Mesh` of `docs/index.js`.
- `Scanline`: arithmetic shared by both rasterizers.
- `Canvases`: `src/canvas.ts`.
- `ImageCanvases`: the `Canvas` of `docs/index.js`.
- `Pipeline`: `src/pipeline.ts`.
- `Prototype`: `src/index.ts`.

The `src/` files are partly out of step with one another, and `docs/index.js`
is the compiled bundle of a later, consistent version. Where a `src` file
calls a member that does not exist, the model follows `docs/index.js`:

- `src/pipeline.ts` calls `Canvas.swapImageData` and `Canvas.clearCTX`. Its
  stages are therefore modelled against the later `cullTris`, `illuminate` and
  packed-pixel canvas.
- `src/mesh.ts` calls `camera.isFacingTowards`. It is modelled as the sign test
  that `backFaceCulling` applies.

## Model

| member | source | states |
|---|---|---|
| `Maths.Round` | src/canvas.ts:92 | `Math.round` returns the integer within one half of x (x - 1/2 < r <= x + 1/2) |
| `Maths.Trunc` | docs/index.js:645-646 | `Math.trunc` rounds toward zero: 0 <= r <= x < r + 1 for x >= 0, and r - 1 < x <= r <= 0 for x < 0 |
| `Maths.Frac` | src/entity.ts:14 | the fractional part that is left after truncating toward zero lies in [0, 1) for x >= 0 and in (-1, 0] for x < 0 |
| `Maths.TruncRemBounds` | src/entity.ts:14 | JavaScript's `a % b` for b > 0 keeps the sign of a and is smaller than b in size |
| `Maths.RemAsFraction` | src/entity.ts:14 | `a % b` equals b times the fractional part of a / b |
| `Maths.Max` | src/camera.ts:40 | `Math.max` is an upper bound of both arguments and equals one of them |
| `Maths.Min` | src/camera.ts:41 | `Math.min` is a lower bound of both arguments and equals one of them |
| `Vectors.Add` | src/vector.ts:24-26 | the sum is built by `make3D`, so its w is 1 whatever the inputs' w |
| `Vectors.Subtract` | src/vector.ts:27-29 | the difference has w = 1 whatever the inputs' w |
| `Vectors.Multiply` | src/vector.ts:31-33 | the component-wise product has w = 1 |
| `Vectors.AddConst` | src/vector.ts:39-41 | adding a constant to x, y and z gives w = 1 |
| `Vectors.MultiplyConst` | src/vector.ts:43-45 | scaling x, y and z gives w = 1 |
| `Vectors.MultiplyConst2D` | src/vector.ts:47-49 | scaling u and v resets w to 1 |
| `Vectors.Invert` | src/vector.ts:60-62 | the negation has w = 1 |
| `Vectors.Size2` | src/vector.ts:51-53 | the squared length is never negative |
| `Vectors.AddSubtractInverse` | src/vector.ts:24-29 | adding then subtracting b, or subtracting then adding b, gives back a's x, y and z |
| `Vectors.AddConstInverse` | src/vector.ts:39-41 | adding c and then -c gives back x, y and z |
| `Vectors.MultiplyConstInverse` | src/vector.ts:43-45 | scaling by c != 0 and then by 1/c gives back x, y and z |
| `Vectors.MultiplyConst2DInverse` | src/vector.ts:47-49 | scaling a texture coordinate by c != 0 and then by 1/c gives back u and v |
| `Vectors.MultiplyInverse` | src/vector.ts:31-33 | multiplying component-wise by a vector with no zero component and then by its reciprocals gives back x, y and z |
| `Vectors.InvertInvolution` | src/vector.ts:60-62 | inverting twice gives back x, y and z |
| `Vectors.CrossProduct` | src/vector.ts:64-70 | the cross product has w = 1 |
| `Vectors.CrossOrthogonal` | src/vector.ts:64-74 | a x b is orthogonal to a and to b |
| `Vectors.LagrangeIdentity` | src/vector.ts:64-74 | the squared length of a x b is the product of the squared lengths minus the square of the dot product |
| `Vectors.CrossOfUnits` | src/vector.ts:64-70 | the cross product of two orthogonal unit vectors is a unit vector |
| `Vectors.ColumnsOrthonormal` | src/vector.ts:64-74 | if three rows are orthonormal, so are the three columns of the matrix they form |
| `Vectors.Normalize` | src/vector.ts:55-58 | a non-zero vector normalizes to a unit vector that is a positive multiple of the input |
| `Vectors.NormalizeUnit` | src/vector.ts:55-58 | normalizing a unit vector leaves x, y and z unchanged and sets w to 1 |
| `Vectors.IntersectPlane` | src/vector.ts:76-84 | for a segment not parallel to the plane, the result is the point of the segment at parameter t, and it lies on the plane (zero signed distance) |
| `Vectors.IntersectParamInSegment` | src/vector.ts:76-84 | when the start is inside (distance >= 0) and the end is outside, the segment is not parallel to the plane and 0 <= t < 1 |
| `Vectors.Lerp` | src/vector.ts:87-93 | at t = 0 the result is start's x, y and z, and at t = 1 it is end's; w is 1 |
| `Vectors.Lerp2D` | src/vector.ts:95-98 | at t = 0 the result is start (u, v and w), and at t = 1 it is end |
| `Vectors.Make3DFrom2D` | src/vector.ts:115-117 | the 3D view of a texture coordinate has w = 1 |
| `Vectors.Make2DFrom3DInverse` | src/vector.ts:115-121 | `make2Dfrom3D(make3Dfrom2D(t))` is t in u, v and w |
| `Vectors.Vec3DCell.constructor` | src/vector.ts:16-18 | a mutable vector object holds the given value |
| `Vectors.Vec2DCell.constructor` | src/vector.ts:20-22 | a mutable texture-coordinate object holds the given value |
| `Vectors.Swap` | src/vector.ts:100-106 | `swap` exchanges all four fields of its two objects |
| `Vectors.Swap2D` | src/vector.ts:108-113 | `swap2D` exchanges u, v and w of its two objects |
| `Vectors.SwapTwiceRestores` | src/vector.ts:100-106 | two swaps restore both objects |
| `Vectors.Swap2DTwiceRestores` | src/vector.ts:108-113 | two 2D swaps restore both objects |
| `Matrices.IdentityCells` | src/matrix.ts:27-34 | the fresh 4x4 array `makeIdentity` fills is the identity matrix |
| `Matrices.MultiplyMatrix` | src/matrix.ts:81-93 | the nested c/r loop computes the matrix product: each cell is the dot product of a row of m1 with a column of m2 |
| `Matrices.MultiplyVectorIdentity` | src/matrix.ts:18-34 | multiplying by the identity returns the vector, w included |
| `Matrices.ProductIdentity` | src/matrix.ts:27-34 | the identity is neutral on both sides of the product |
| `Matrices.MultiplyVectorProduct` | src/matrix.ts:18-25 | multiplying by A and then by B is multiplying by the product A B (the row-vector convention) |
| `Matrices.TranslationMovesPoint` | src/matrix.ts:63-69 | for a point (w = 1), multiplying by the translation matrix adds the offset and keeps w = 1 |
| `Matrices.ProjectionDepth` | src/matrix.ts:71-79 | the projected w is the input's z, and x and y are scaled by the aspect ratio and FOV factors |
| `Matrices.RotationsRigid` | src/matrix.ts:36-61 | with c² + s² = 1 the three rotation matrices are rigid (orthonormal 3x3 block, last column (0,0,0,1)) |
| `Matrices.RotationXKeepsAxis` | src/matrix.ts:36-43 | a rotation about x keeps x, w and the length of the point |
| `Matrices.RotationYKeepsAxis` | src/matrix.ts:45-52 | a rotation about y keeps y, w and the length of the point |
| `Matrices.RotationZKeepsAxis` | src/matrix.ts:54-61 | a rotation about z keeps z, w and the length of the point |
| `Matrices.QuickInverseIsInverse` | src/matrix.ts:110-122 | for a rigid matrix, `QuickInverse` is a two-sided inverse |
| `Matrices.PointAtRigid` | src/matrix.ts:95-108 | the point-at matrix is rigid, its third row is the unit forward direction, and its last row is the position |
| `Matrices.UpResidueOrthogonal` | src/matrix.ts:95-108 | the new up direction is orthogonal to the forward direction |
| `Triangles.DefaultTri` | src/tri.ts:9-17 | the default triangle has three zero vertices, three zero texture coordinates and light level 1 |
| `Triangles.AddVector` | src/tri.ts:19-28 | every vertex is offset by the vector; the texture coordinates and the light level are unchanged |
| `Triangles.AddConst` | src/tri.ts:30-38 | a constant is added to every vertex; the texture coordinates and the light level are unchanged |
| `Triangles.MultiplyVector` | src/tri.ts:40-48 | every vertex is scaled component-wise; the texture coordinates and the light level are unchanged |
| `Triangles.MultiplyConst` | src/tri.ts:50-58 | every vertex is scaled by the constant; the texture coordinates and the light level are unchanged |
| `Triangles.MultiplyVectorAsConst` | src/tri.ts:60-68 | vertex i is scaled by the i-th component of k; the texture coordinates and the light level are unchanged |
| `Triangles.MultiplyVectorAsCons2D` | src/tri.ts:70-78 | texture coordinate i is scaled by the i-th component of k; the vertices and the light level are unchanged |
| `Triangles.MultiplyMatrix` | src/tri.ts:86-94 | every vertex is multiplied by the matrix; the texture coordinates and the light level are unchanged |
| `Triangles.MultiplyMatrixProduct` | src/tri.ts:86-94 | transforming by A and then by B is transforming by A B |
| `Triangles.GetNormal` | src/tri.ts:80-84 | the normal of a non-degenerate triangle is a unit vector orthogonal to two of its edges and a positive multiple of their cross product (p1 - p0) x (p2 - p1), so its orientation is fixed |
| `Triangles.InsideCount` | src/tri.ts:115-124 | at most three vertices are on the inside of the plane |
| `Triangles.Classify` | src/tri.ts:115-124 | the vertices are split into inside and outside lists, in their original order, with the texture coordinates in lockstep; the list sizes are the inside and outside counts |
| `Triangles.TexAt` | src/tri.ts:138-150 | the interpolated texture coordinate is the inside one at t = 0 and the outside one at t = 1 |
| `Triangles.TexAtIsLerp2D` | docs/index.js:341-355 | the interpolation of the first version agrees with `lerp2D` of the later version |
| `Triangles.ClipAgainstPlane` | src/tri.ts:101-191 | the number of triangles is 0, 1, 2 or 1 when 0, 1, 2 or 3 vertices are inside |
| `Triangles.ClipVariantsAgree` | docs/index.js:297-364 | the copying clip of the later version returns the same triangles as the first version |
| `Triangles.ClipNoneInside` | src/tri.ts:126-128 | with every vertex outside, the result is empty |
| `Triangles.ClipAllInside` | src/tri.ts:130-132 | with every vertex inside, the result is exactly the input triangle |
| `Triangles.Cut` | src/tri.ts:138-150 | the new vertex lies on the plane, at a parameter 0 <= t < 1 of the inside-to-outside edge; its texture coordinate is interpolated with the same t |
| `Triangles.ClipOneInside` | src/tri.ts:134-157 | with exactly vertex k inside, the result is one triangle: vertex k with its texture coordinate, then the crossings of k's edges to the two outside vertices; the light level is copied |
| `Triangles.ClipTwoInside` | src/tri.ts:159-189 | with exactly vertex m outside, the result is (in0, in1, P1) and (in1, P1, P2), with the inside vertices in their original order and P1, P2 the crossings of their edges to m |
| `Triangles.ClipOutputInside` | src/tri.ts:101-191 | every vertex of every output triangle is on the inside of the plane |
| `Triangles.ClipKeepsHalfSpace` | src/tri.ts:101-191 | a triangle inside some other half-space gives pieces that are still inside it (convexity) |
| `Triangles.ClipAll` | src/camera.ts:71 | clipping each triangle of a list gives at most twice as many triangles, all inside the plane |
| `Triangles.ClipAllKeepsHalfSpace` | src/camera.ts:99-104 | clipping a list against one plane keeps it inside every half-space it was already inside |
| `Triangles.ClipAllInsideUnchanged` | src/camera.ts:99-104 | a list already inside the plane is returned unchanged |
| `Entities.WorldMatrixSequential` | src/entity.ts:28-37 | the product (RotZ RotX)(RotY Trans) transforms a point as rotating about z, then x, then y, then translating |
| `Entities.WorldMatrixNoRotation` | src/entity.ts:28-37 | with zero rotation (c = 1, s = 0) the transform is the translation to the position |
| `Entities.InitialTransform` | src/entity.ts:6 | a fresh entity at the origin with no rotation has the identity transform |
| `Entities.Turn` | src/entity.ts:14 | the amount a rotation adds, `rad % Math.PI`, keeps the sign of rad and lies strictly between -π and π |
| `Entities.Entity.constructor` | src/entity.ts:6 | the position and rotation are the given ones |
| `Entities.Entity.Translate` | src/entity.ts:8-11 | the position becomes pos + vec with w = 1; the rotation is unchanged |
| `Entities.Entity.RotateX` | src/entity.ts:13-16 | only rot.x changes, by `rad % π`, and the sum itself is not wrapped; the position is unchanged |
| `Entities.Entity.RotateY` | src/entity.ts:18-21 | only rot.y changes, by `rad % π`; the position is unchanged |
| `Entities.Entity.RotateZ` | src/entity.ts:23-26 | only rot.z changes, by `rad % π`; the position is unchanged |
| `Entities.Entity.GetTransformMatrix` | src/entity.ts:28-37 | returns the world matrix of the current position and rotation, which `WorldMatrixSequential` characterizes |
| `Cameras.TargetOffset` | src/camera.ts:48-52 | the look target is the position plus the rotated forward axis, and it is a point (w = 1) |
| `Cameras.ViewDirectionUnit` | src/camera.ts:48-52 | the rotated forward axis is a unit vector |
| `Cameras.CameraCanPointAt` | src/camera.ts:48-55 | the target is at unit distance and `PointAt` is well defined exactly when cos(rot.x) != 0 |
| `Cameras.PointableIff` | src/matrix.ts:95-108 | for a unit look direction the point-at matrix is defined exactly when the up residue is non-zero |
| `Cameras.ViewMatrixInverts` | src/camera.ts:48-55 | the view matrix is a two-sided inverse of the camera's point-at matrix; it maps the position to the origin and the target to (0, 0, 1) |
| `Cameras.ClampedPitchViewable` | src/camera.ts:40-41 | every pitch inside the clamp range has positive cosine, so the view matrix is defined after `rotateX` |
| `Cameras.ClampBounds` | src/camera.ts:40-41 | clamping with `Math.max` then `Math.min` keeps the pitch within [-b, b] |
| `Cameras.FacingSign` | src/camera.ts:58 | the dot product with the normalized direction is negative exactly when the dot product with the raw direction is |
| `Cameras.Visibility` | src/camera.ts:58 | one (index, dot) pair per triangle, with the indices increasing |
| `Cameras.KeepFacing` | src/camera.ts:59 | the filter keeps exactly the pairs with negative d, and nothing else |
| `Cameras.KeepFacingIncreasing` | src/camera.ts:59 | the filter keeps the indices strictly increasing |
| `Cameras.BackFaceCulling` | src/camera.ts:57-60 | returns pairs with strictly increasing indices below tris.length and negative d, and it lists triangle i exactly when normal_i . (p0_i - pos) < 0 |
| `Cameras.ViewClip` | src/camera.ts:66-71 | near-then-far clipping gives at most four triangles, each with every vertex's view depth in [near, far] |
| `Cameras.BetweenPlanes` | src/camera.ts:14-17 | inside the near plane and inside the far plane means a depth in [near, far] |
| `Cameras.FrustumPlanes` | src/camera.ts:6-9 | a point is inside all four screen planes exactly when -1 <= x <= 1 and -1 <= y <= 1 |
| `Cameras.ProjectTri` | src/camera.ts:74-95 | each vertex is the projected point divided by its w with x and y negated; each texture coordinate is divided by that w and carries w' = 1/w; the light level is copied |
| `Cameras.DivideVertex` | src/camera.ts:85-93 | scaling by 1/w and negating x and y is the perspective divide |
| `Cameras.DivideTex` | src/camera.ts:79-83 | the 2D scaling followed by setting w to 1/w divides u and v by w |
| `Cameras.ProjectAll` | src/camera.ts:72-96 | one projected triangle per input triangle, in order |
| `Cameras.InRangeProjectable` | src/camera.ts:74-79 | a triangle with depths in [near, far] has non-zero projected w at every vertex |
| `Cameras.Project2D` | src/camera.ts:63-97 | `project2D` returns at most four triangles |
| `Cameras.Lens.Project` | src/camera.ts:63-97 | projecting through a camera's matrices and clip depths returns at most four triangles |
| `Cameras.Project2DPieces` | src/camera.ts:63-97 | `project2D` returns exactly one perspective-divided triangle per piece of the near/far clip |
| `Cameras.ProjectedVertex` | src/camera.ts:77-93 | a vertex at depth z >= near lands at (-x·a·f/z, -y·f/z) with texture w = 1/z in (0, 1/near] |
| `Cameras.FrustumPlanesTri` | src/camera.ts:6-9 | a triangle is inside all four screen planes exactly when every vertex has -1 <= x <= 1 and -1 <= y <= 1 |
| `Cameras.FrustumClip` | src/camera.ts:99-104 | at most 16 triangles come back, each with every vertex in [-1, 1] on x and y |
| `Cameras.FrustumKeepsOnScreen` | src/camera.ts:99-104 | a triangle already on screen comes back as the single-element list [tri] |
| `Cameras.Camera.constructor` | src/camera.ts:19-32 | stores the clip points, then runs `resize` and `update` once each, so the projection and view matrices are current |
| `Cameras.Camera.Resize` | src/camera.ts:34-36 | the projection matrix becomes `MakeProjection` of the FOV, aspect ratio and clip depths; nothing else changes |
| `Cameras.Camera.Update` | src/camera.ts:48-55 | the view matrix becomes the inverse of the point-at matrix for the current position and rotation |
| `Cameras.Camera.Translate` | src/entity.ts:8-11 | the position moves by vec, then `update` runs once, so the view matrix is current |
| `Cameras.Camera.RotateX` | src/camera.ts:38-42 | rot.x becomes the clamp of the turned angle to [-π/2.1, π/2.1]; the view matrix reflects the unclamped angle, because `update` ran before the clamp |
| `Cameras.Camera.RotateY` | src/entity.ts:18-21 | rot.y turns by `rad % π`, then `update` runs once |
| `Cameras.Camera.RotateZ` | src/entity.ts:23-26 | rot.z turns by `rad % π`, then `update` runs once |
| `Cameras.Camera.GetHorizontalLookDirection` | src/camera.ts:44-46 | the forward axis rotated by the yaw alone: horizontal (y = 0) and of unit length |
| `Cameras.Camera.CurrentLens` | src/camera.ts:63-71 | the matrices and clip depths that `project2D` reads from the camera |
| `Cameras.Camera.ProjectTriangle` | src/camera.ts:63-97 | the camera's `project2D` returns at most four triangles |
| `Meshes.Luminance` | src/mesh.ts:55 | the luminance is max(0.1, light . normal): at least 0.1, at least the dot product, and equal to one of them |
| `Meshes.Shade` | src/mesh.ts:56 | the cached colour is white scaled by the luminance, so every channel is at least 25.5 |
| `Meshes.WorldTris` | src/mesh.ts:43 | triangle i is `Tri.MultiplyMatrix(rawTris[i], world)`, with as many triangles as raw triangles |
| `Meshes.Normals` | src/mesh.ts:44 | normal i is `GetNormal` of triangle i |
| `Meshes.Cached` | src/mesh.ts:54-57 | the cache entry after one pass is computed only if it was absent and the triangle faces the camera, otherwise kept |
| `Meshes.Tagged` | src/mesh.ts:58 | a facing triangle is tagged with its cached colour; the others keep their tag |
| `Meshes.ProjectFacing` | src/mesh.ts:48-64 | the facing triangles, projected in order, give at most four triangles each |
| `Meshes.CachedIdempotent` | src/mesh.ts:54-57 | a second pass changes no cache entry, and every newly computed entry has channels >= 25.5 |
| `Meshes.NoneFacingNothingProjected` | src/mesh.ts:52 | when no triangle faces the camera, nothing is projected |
| `Meshes.WorldTrisTranslated` | src/mesh.ts:41-43 | under a pure translation every vertex moves by the offset and the texture and light are kept |
| `Meshes.Visit` | src/mesh.ts:50-59 | one step of the `reduce`: decides whether the triangle faces the camera, fills the cache entry if needed and tags the triangle |
| `Meshes.VisitTris` | src/mesh.ts:48-64 | the `reduce` loop produces the projected list, the new cache and the new tags of the specification functions |
| `Meshes.Mesh.constructor` | src/mesh.ts:15-20 | the triangles are the raw ones, the normals are their normals, and the cache is empty |
| `Meshes.Mesh.Update` | src/mesh.ts:41-46 | the triangles are rebuilt from the raw ones with the entity's world matrix, the normals are recomputed, and the colour cache is emptied |
| `Meshes.Mesh.Translate` | src/entity.ts:8-11 | the position moves, then one `update` follows: the triangles are rebuilt from the raw ones, the normals recomputed and the colour cache and tags emptied |
| `Meshes.Mesh.RotateX` | src/entity.ts:13-16 | rot.x turns, then one `update` follows: the triangles are rebuilt from the raw ones, the normals recomputed and the colour cache and tags emptied |
| `Meshes.Mesh.RotateY` | src/entity.ts:18-21 | rot.y turns, then one `update` follows: the triangles are rebuilt from the raw ones, the normals recomputed and the colour cache and tags emptied |
| `Meshes.Mesh.RotateZ` | src/entity.ts:23-26 | rot.z turns, then one `update` follows: the triangles are rebuilt from the raw ones, the normals recomputed and the colour cache and tags emptied |
| `Meshes.Mesh.ProjectTris` | src/mesh.ts:48-64 | returns the facing triangles projected by the camera, in order; fills the cache lazily and tags the facing triangles; the triangles and normals are unchanged |
| `IndexedMeshes.FaceTri` | docs/index.js:725 | one triangle per index tuple: vertices from the first three indices, texture coordinates from the last three, light level 1 |
| `IndexedMeshes.WorldVerts` | docs/index.js:724 | every vertex is multiplied by the world matrix |
| `IndexedMeshes.BuildTris` | docs/index.js:722-725 | exactly one triangle per index tuple, built from the transformed vertices |
| `IndexedMeshes.BuildTrisTransformsFaces` | docs/index.js:722-725 | with valid indices, building from transformed vertices is transforming the built triangle |
| `IndexedMeshes.MissingVertexStays` | docs/index.js:725 | a missing or out-of-range vertex index gives the zero default vertex |
| `IndexedMeshes.Light` | docs/index.js:677 | the light direction is a unit vector |
| `IndexedMeshes.LightLevel` | docs/index.js:734 | the level is max(0.1, light . normal) |
| `IndexedMeshes.Illuminated` | docs/index.js:733-735 | every triangle's l becomes its level, and nothing else changes |
| `IndexedMeshes.IlluminateIdempotent` | docs/index.js:733-735 | lighting twice is lighting once |
| `IndexedMeshes.Select` | docs/index.js:730-731 | the selection by kept indices has one entry per kept index, taken from that index |
| `IndexedMeshes.InitialBuildIsUpdate` | docs/index.js:680-687 | the constructor's build with the identity is `update`'s build for a fresh entity |
| `IndexedMeshes.CulledInLockstep` | docs/index.js:728-732 | after culling, the triangles and normals still correspond, every kept triangle faces the camera, and a triangle is kept exactly when it faces the camera |
| `IndexedMeshes.RelitKeepsNormals` | docs/index.js:733-735 | changing the light levels does not change the normals |
| `IndexedMeshes.Mesh.constructor` | docs/index.js:680-687 | stores the vertices, texture coordinates and index tuples, then runs `update` once |
| `IndexedMeshes.Mesh.Update` | docs/index.js:722-727 | the triangles are rebuilt from the index tuples with the world matrix, one per tuple, and the normals are recomputed |
| `IndexedMeshes.Mesh.Rebuild` | docs/index.js:722-726 | the triangles become `BuildTris` of the index tuples under the given matrix, and the normals are recomputed |
| `IndexedMeshes.Mesh.CullTris` | docs/index.js:728-732 | the triangles and normals are replaced by the same selection of `backFaceCulling`'s indices; a triangle survives exactly when it faces the camera |
| `IndexedMeshes.Mesh.Illuminate` | docs/index.js:733-735 | every triangle's l becomes max(0.1, light . normal), so l >= 0.1; the normals are unchanged |
| `Scanline.SortByY` | src/canvas.ts:92-114 | the three compare-and-swaps give y1 <= y2 <= y3 and a permutation of the vertices, with their attributes moved in lockstep |
| `Scanline.SortByYKeepsSorted` | docs/index.js:574-585 | vertices already in order are not moved |
| `Scanline.ColumnParamRatio` | src/canvas.ts:174-189 | after k steps of 1/(bx - ax), t is k/(bx - ax), and it is in [0, 1) inside the span |
| `Scanline.ColumnParamStep` | src/canvas.ts:189 | each column adds 1/(bx - ax) to t |
| `Canvases.Texel` | src/canvas.ts:254-255 | the colour at col + width·row, or nothing when that index is outside the colour list |
| `Canvases.SampleColor` | src/canvas.ts:251-256 | a sampled colour is always one of the texture's colours |
| `Canvases.SampleInTexture` | src/canvas.ts:251-256 | for (u, v) strictly inside the texture, the index floor(u·w - 0.001) + width·floor(v·h - 0.001) is in range |
| `Canvases.ScreenSpace` | src/canvas.ts:58-63 | x maps to (x + 1)·width/2 and y to (y + 1)·height/2; z, the texture coordinates and the light level are kept |
| `Canvases.ScreenSpaceOnScreen` | src/canvas.ts:58-63 | normalized coordinates in [-1, 1] land in [0, width] x [0, height], with -1 at 0 and 1 at the far edge |
| `Canvases.RowSpan` | src/canvas.ts:152-168 | after the per-row swap, ax <= bx |
| `Canvases.RowSpanEnds` | src/canvas.ts:152-168 | the span runs between the two edge crossings, each end keeping its own edge's texture coordinates |
| `Canvases.SpanFrags` | src/canvas.ts:178 | a row visits bx - ax pixels |
| `Canvases.SpanFragLerp` | src/canvas.ts:174-182 | the pixel in column j has the texture coordinates of the lerp between the row ends at t = (j - ax)/(bx - ax) |
| `Canvases.HalfFragsRows` | src/canvas.ts:151 | a half visits only rows between its first and last row |
| `Canvases.TriangleFragsRows` | src/canvas.ts:150-247 | every visited pixel lies in a row between y1 and y3 |
| `Canvases.FlatTriangleDrawsNothing` | src/canvas.ts:135-150 | a triangle whose corners round to one row visits no pixel |
| `Canvases.ApplyAll` | src/canvas.ts:184-187 | drawing keeps both buffers' sizes and no depth becomes negative |
| `Canvases.ApplyAllDeepens` | src/canvas.ts:184-187 | a depth entry never decreases within a frame |
| `Canvases.ApplyAllKeepsNearest` | src/canvas.ts:184-187 | after drawing, the depth of every visited in-range cell is at least the w of every fragment visiting it |
| `Canvases.ApplyAllUntouched` | src/canvas.ts:184-187 | a cell that no fragment visits keeps its depth |
| `Canvases.Canvas.constructor` | src/canvas.ts:30-40 | a width x height canvas with zero depths and every pixel the background |
| `Canvases.Canvas.Clear` | src/canvas.ts:30-40 | the depth buffer becomes width·height zeros and every pixel the background |
| `Canvases.Canvas.Plot` | src/canvas.ts:184-187 | one depth test: the pixel and the depth are written only when w exceeds the stored depth |
| `Canvases.Canvas.DrawSpan` | src/canvas.ts:178-190 | the column loop leaves the buffers as the fold over the span's pixels |
| `Canvases.Canvas.DrawHalf` | src/canvas.ts:151-191 | the row loop leaves the buffers as the fold over the half's pixels |
| `Canvases.Canvas.TexturedTriangle` | src/canvas.ts:83-249 | drawing a triangle leaves the buffers as the fold over its pixels |
| `ImageCanvases.ToUint32` | docs/index.js:636 | storing into a `Uint32Array` gives a 32-bit value, the floor of x for x in [0, 2^32) |
| `ImageCanvases.Texel` | docs/index.js:647 | the packed colour at col + width·row, or nothing when that index is outside the list |
| `ImageCanvases.SampleColorUInt8` | docs/index.js:642-648 | a sampled colour is always one of the texture's packed colours |
| `ImageCanvases.SampleInTexture` | docs/index.js:642-648 | for (u, v) inside the texture, trunc(u·w) + width·trunc(v·h) is in range |
| `ImageCanvases.ShadeChannels` | docs/index.js:649-655 | for 0 <= l <= 1 the shaded colour is 32-bit, keeps the alpha byte and replaces each RGB byte b by floor(b·l) |
| `ImageCanvases.ShadedByte` | docs/index.js:653-655 | masking the scaled channel gives floor(b·l), a byte |
| `ImageCanvases.ApplyAll` | docs/index.js:634-637 | drawing keeps both buffers' sizes and the depths stay 32-bit |
| `ImageCanvases.ApplyAllDeepens` | docs/index.js:634-637 | a depth entry never decreases while w·65535 stays below 2^32 |
| `ImageCanvases.ApplyAllKeepsNearest` | docs/index.js:634-637 | while w·65535 < 2^32 for every fragment, after drawing every visited in-range cell holds at least floor(w·65535) of every fragment visiting it |
| `ImageCanvases.Swapped` | docs/index.js:617-619 | after the swap the guard is false, so `rasterize` recurses at most once |
| `ImageCanvases.SwappedTwice` | docs/index.js:617-619 | exchanging left and right twice gives the edges back |
| `ImageCanvases.RowFrags` | docs/index.js:631 | a row visits endCol - startCol pixels |
| `ImageCanvases.RowFragLerp` | docs/index.js:629-638 | the pixel in column j carries the lerp between the row ends at t = (j - startCol)/(endCol - startCol) |
| `ImageCanvases.RowsInRange` | docs/index.js:623 | `rasterize` visits only rows from startRow to endRow |
| `ImageCanvases.GetStepReaches` | docs/index.js:605-613 | starting at p1, `p2.y - p1.y` steps reach p2 in x and in u, v and w |
| `ImageCanvases.LongEdgeContinues` | docs/index.js:595-601 | the bottom half resumes the long edge exactly where the top half's long edge is at row p2.y |
| `ImageCanvases.LongEdgeReachesEnd` | docs/index.js:590-601 | the bottom half's long edge reaches p3 on row p3.y |
| `ImageCanvases.TriangleFragsRows` | docs/index.js:569-603 | every visited pixel lies in a row between p1.y and p3.y |
| `ImageCanvases.FlatTriangleDrawsNothing` | docs/index.js:586-589 | a triangle whose corners round to one row draws nothing |
| `ImageCanvases.ImageCanvas.constructor` | docs/index.js:473-494 | zero depths, and an image and a saved empty image filled with the background |
| `ImageCanvases.ImageCanvas.Clear` | docs/index.js:498-502 | the image is restored from the saved empty image and every depth becomes 0 |
| `ImageCanvases.ImageCanvas.DrawPixel` | docs/index.js:649-657 | writes the shaded colour to cell x + width·y only, and nothing outside the image |
| `ImageCanvases.ImageCanvas.Plot` | docs/index.js:634-637 | one depth test on w·65535, the write of the shaded texel, and the depth store |
| `ImageCanvases.ImageCanvas.DrawRow` | docs/index.js:629-639 | the column loop leaves the buffers as the fold over the row's pixels |
| `ImageCanvases.ImageCanvas.Rasterize` | docs/index.js:614-641 | `rasterize` (with its one swap) leaves the buffers as the fold over its rows' pixels |
| `ImageCanvases.ImageCanvas.TexturedTriangle` | docs/index.js:569-603 | drawing a triangle leaves the buffers as the fold over its two halves' pixels, shaded by the triangle's light level |
| `Pipeline.Initial` | src/pipeline.ts:20-30 | seven slots |
| `Pipeline.InitialWellFormed` | src/pipeline.ts:20-30 | the initial slots are [cull, light, project, clip, drawTexture, Identity, debugInfo], within the stages each slot can hold |
| `Pipeline.TogglesKeepWellFormed` | src/pipeline.ts:109-132 | every toggle keeps each slot within its set of stages |
| `Pipeline.CullingToggleFlips` | src/pipeline.ts:113-115 | `toggleCulling` flips slot 0 between cull and Identity, changes no other slot, and twice restores the state |
| `Pipeline.ShadingToggleFlips` | src/pipeline.ts:117-119 | `toggleShading` flips slot 1 between lighting and Identity, changes no other slot, and twice restores the state |
| `Pipeline.TextureToggleCycles` | src/pipeline.ts:121-132 | by state: drawTexture → (draw, Identity), draw → (drawVoid, wireframe), drawVoid → (drawTexture, Identity) for slots 4 and 5, no other slot changing; three toggles restore slot 4, and restore slot 5 only when it held slot 4's companion (wireframe with drawVoid, Identity otherwise) |
| `Pipeline.WireFrameToggleInstalls` | src/pipeline.ts:109-111 | slot 3 never holds wireframe, so the toggle always installs it in slot 5 and is idempotent |
| `Pipeline.ClearIffTextured` | src/pipeline.ts:102-104 | the depth-buffer `clear` runs exactly when slot 4 is the bound drawTexture |
| `Pipeline.InsertSorted` | src/pipeline.ts:64-68 | inserting into a list in non-increasing mean-z order keeps it in order |
| `Pipeline.InsertPermutes` | src/pipeline.ts:64-68 | insertion adds exactly the new triangle |
| `Pipeline.SortByDepthSorts` | src/pipeline.ts:64-68 | `draw`'s sort returns a permutation of its input in non-increasing mean-z order |
| `Pipeline.SortByDepthKeepsSorted` | src/pipeline.ts:64-68 | a list already in order is not moved (the sort is stable) |
| `Pipeline.ProjectTris` | src/pipeline.ts:42-44 | `project` gives at most four triangles per mesh triangle |
| `Pipeline.ClipTris` | src/pipeline.ts:46-49 | every triangle that `clip` returns is on screen |
| `Pipeline.ClipTrisKeepsOnScreen` | src/pipeline.ts:46-49 | on-screen triangles pass `clip` unchanged |
| `Pipeline.Painted` | src/pipeline.ts:51-60 | drawing each triangle in turn keeps the buffer sizes and 32-bit depths |
| `Pipeline.Culled` | src/pipeline.ts:32-35 | the cull stage changes the mesh only and keeps the scene runnable |
| `Pipeline.Lit` | src/pipeline.ts:37-40 | the lighting stage changes the light levels only, keeping normals and frame |
| `Pipeline.Run` | src/pipeline.ts:32-97 | running any stage keeps the scene runnable |
| `Pipeline.Fold` | src/pipeline.ts:106 | folding any prefix of the slots keeps the scene runnable |
| `Pipeline.MeshStageEmpties` | src/pipeline.ts:32-40 | the cull, light and Identity stages return [] on [] |
| `Pipeline.ProjectReadsMeshOnly` | src/pipeline.ts:32-44 | the first two slots leave [], so `project`'s output depends only on the mesh state |
| `Pipeline.EmptyStays` | src/pipeline.ts:106 | a mesh-only stage keeps the running list empty |
| `Pipeline.DrawnTrianglesOnScreen` | src/pipeline.ts:42-49 | every triangle that reaches slot 4 is on screen |
| `Pipeline.Cleared` | docs/index.js:498-502 | `clear` gives zero depths of the same count |
| `Pipeline.RenderPipeline.constructor` | src/pipeline.ts:20-30 | the slots are the initial ones |
| `Pipeline.RenderPipeline.ToggleCulling` | src/pipeline.ts:113-115 | the slots become `ToggledCulling` of the old slots |
| `Pipeline.RenderPipeline.ToggleShading` | src/pipeline.ts:117-119 | the slots become `ToggledShading` of the old slots |
| `Pipeline.RenderPipeline.ToggleTexture` | src/pipeline.ts:121-132 | the slots become `ToggledTexture` of the old slots |
| `Pipeline.RenderPipeline.ToggleWireFrame` | src/pipeline.ts:109-111 | the slots become `ToggledWireFrame` of the old slots |
| `Pipeline.RenderPipeline.DrawTextures` | src/pipeline.ts:51-60 | the loop draws each triangle in order: the canvas ends as `Painted` |
| `Pipeline.RenderPipeline.RunStage` | src/pipeline.ts:32-97 | one stage changes the mesh, canvas and list as `Run` says |
| `Pipeline.RenderPipeline.Cull` | src/pipeline.ts:32-35 | the cull stage leaves the scene as `Culled` of the old scene |
| `Pipeline.RenderPipeline.Light` | src/pipeline.ts:37-40 | the lighting stage leaves the scene as `Lit` of the old scene |
| `Pipeline.RenderPipeline.Paint` | src/pipeline.ts:51-60 | the drawTexture stage leaves the frame as `Painted` of the old frame and the input |
| `Pipeline.RenderPipeline.Advance` | src/pipeline.ts:106 | one step of the `reduce` takes the fold from i slots to i + 1 |
| `Pipeline.RenderPipeline.Render` | src/pipeline.ts:99-107 | `render` clears the canvas unless slot 4 repaints the 2D context, then leaves the scene as the fold of all slots from [] |
| `Pipeline.RenderPipeline.RunSlots` | src/pipeline.ts:106 | the `reduce` loop leaves the scene as the fold of all slots |
| `Prototype.MultiplyVectorMatrix` | src/index.ts:47-60 | the point with implicit w = 1 is multiplied, then divided by the computed w when that is non-zero and left undivided when it is zero |
| `Prototype.MultiplyVectorMatrixIdentity` | src/index.ts:47-60 | the identity matrix returns the input |
| `Prototype.MultiplyVectorMatrixAffine` | src/index.ts:48-52 | for an affine matrix, the result is the library's `MultiplyVector` of the point |
| `Prototype.Projection` | src/index.ts:36-41 | the prototype's projection matrix is the library's `MakeProjection` |
| `Prototype.ProjectionDividesByDepth` | src/index.ts:36-58 | a projected point has x·z = a·f·x0, y·z = f·y0 and depth z'·z·(far - near) = far·(z - near) |
| `Prototype.ProjectionDepthRange` | src/index.ts:36-58 | a depth in [near, far] projects into [0, 1], with near to 0 and far to 1 |
| `Prototype.TriHelpersKeepOrder` | src/index.ts:62-134 | each triangle helper treats the three vertices alike, so it commutes with rotating the vertex order |
| `Prototype.AddTriInverse` | src/index.ts:94-116 | adding a vector or a constant is undone by adding its negation |
| `Prototype.MultiplyTriConstInverse` | src/index.ts:78-84 | scaling by c != 0 is undone by scaling by 1/c |
| `Prototype.MultiplyTriMatrixTranslation` | src/index.ts:62-68 | the translation matrix adds the offset to every vertex, and the identity changes nothing |
| `Prototype.Cube` | src/index.ts:206-233 | the cube has 12 triangles |
| `Prototype.CubeShape` | src/index.ts:206-233 | two triangles per face, every vertex a corner with coordinates in {0, 1} on that face |
| `Prototype.CubeSideCovered` | src/index.ts:206-233 | the two triangles of each face together use exactly its four corners |

## Left out

- IEEE-754 behaviour (NaN, Infinity, rounding) is not modelled: numbers are exact reals, and the divisions by zero the source can perform are preconditions.
- `Vectors.Normalize`: a zero-length vector is excluded by precondition; the source divides by zero and yields NaN components.
- `Vectors.IntersectPlane`: a segment parallel to the plane is excluded by precondition; the source divides by zero.
- `Triangles.GetNormal`: a degenerate triangle is excluded by precondition, through `Normalize`. For the same reason `Meshes.Mesh.Update`, `IndexedMeshes.Mesh.Update` and their mutators require that the rebuilt triangles are not degenerate.
- `Cameras.Camera.Update`: the camera requires cos(rot.x) != 0. Otherwise the point-at matrix of the source has no well-defined up direction. After any `rotateX` the clamp keeps the pitch in the range where this holds.
- `Cameras.Camera.RotateX`: requires a non-zero cosine of the unclamped angle, because `update` runs before the clamp.
- `Cameras.BackFaceCulling`: requires that no triangle's first vertex is at the camera position, where the source normalizes a zero vector.
- `Pipeline.RenderPipeline.Render`: inherits the precondition of `Cameras.BackFaceCulling` for every slot configuration, even when slot 0 holds Identity and the source never normalizes `p0 - pos`.
- Transcendental functions and π are parameters (`MathLib`), constrained only by the identities the proofs need. Their values, and the FOV factor `1 / tan(fov / 2)`, are not computed.
- Canvas 2D context calls are I/O and are left out: the DOM lookup and context calls of `SetupCanvas` (its buffer setup is the `ImageCanvas` constructor), `DrawTriangle`, `FillTriangle`, the `fillRect` in `src/canvas.ts`'s `DrawPixel`, `DrawDebugInfo`, `swapImageData` and `clearCTX`. Pixel writes are updates of a colour array. In `src/canvas.ts` an out-of-range texel makes `DrawPixel` set `fillStyle` to `undefined`; the 2D context ignores that invalid colour and `fillRect` paints the previously set one. A `None` pixel in the `Canvases` model stands for that previous colour.
- `Pipeline.Run`: the 2D-context stages (`draw`'s `FillTriangle` loop and colour string, `drawVoid`, `wireframe`, `debugInfo`) pass their list through unchanged. The drawing they do on the context is not modelled.
- `Pipeline.SortByDepthSorts`: `draw` sorts in place with `Array.prototype.sort`. The model sorts as a value with a stable insertion sort. Its order and permutation are proved, but not the library's in-place algorithm.
- `loadImage` and both `LoadFromObjFile` versions (asynchronous fetch, image decoding, text parsing) are left out. The texture is a parameter.
- `src/input.ts` (DOM events, pointer lock, key state) is not part of this model.
- `performance.mark`/`measure` timing and the frame-time averaging in `clear` are left out.
- `setup`, `mainLoop`, `requestAnimationFrame` and resize handling in `src/index.ts` and `docs/index.js` are left out.
- Object aliasing is not modelled; triangles and vectors are values:
  - the shared texture objects of the two clipped triangles;
  - `swap2D` on the caller's texture coordinates;
  - the camera's `rot` object shared with its creator;
  - `Object.assign` onto triangles.
  The copies in the later clip are therefore the values themselves (`Triangles.ClipVariantsAgree`).
- `ImageCanvases.ApplyAllDeepens` and `ImageCanvases.ApplyAllKeepsNearest`: both proved only while w·65535 stays below 2^32. Beyond that, a `Uint32Array` store wraps around and a depth can decrease.
- `ImageCanvases.ToUint32`: only the conversion that the depth store and `DrawPixel` need is modelled, not `Uint32Array` behaviour for negative or non-finite values.
- `Meshes.ProjectFacing`: the order-preserving concatenation is its definition, so the contract states only the size bound. `Meshes.NoneFacingNothingProjected` adds the empty case.
- `Cameras.Project2D`: the contract states only the size bound. `Cameras.Project2DPieces` states the exact pieces.
- `Prototype.CubeShape`: the winding of the cube's triangles (outward normals) is not proved.
- The stage identity tests of `render` and the toggles (`=== this.draw`, `.name === "bound ..."`) are modelled as a stage enumeration per slot.
