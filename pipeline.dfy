/** The render pipeline of src/pipeline.ts: seven slots of stages that
    `render` runs in order, each on the list of triangles the previous one
    returned, and toggles that swap the stage in one or two slots. A slot
    holds a stage by name here; the source stores bound methods and tells
    them apart by identity or by their `name`. The stages act on the mesh
    and camera of the later version (`cullTris`, `illuminate`, `project2D`,
    `frustumClip`) and on its packed-pixel canvas. */
module Pipeline {
  import opened Maths
  import opened Vectors
  import opened Triangles
  import Cameras
  import IndexedMeshes
  import ImageCanvases

  /** The stages a slot can hold. */
  datatype Stage =
    | BackFaceCulling | Lighting | Project | Clip
    | DrawTexture | Draw | DrawVoid | Wireframe | DebugInfo | Identity

  /** The slots the constructor installs. */
  function Initial(): (r: seq<Stage>)
    ensures |r| == 7
  {
    [BackFaceCulling, Lighting, Project, Clip, DrawTexture, Identity, DebugInfo]
  }

  /** What the slots can hold: only slots 0, 1, 4 and 5 are ever
      reassigned, each within its own set of stages. */
  predicate WellFormed(s: seq<Stage>) {
    && |s| == 7
    && s[0] in {BackFaceCulling, Identity} && s[1] in {Lighting, Identity}
    && s[2] == Project && s[3] == Clip
    && s[4] in {DrawTexture, Draw, DrawVoid} && s[5] in {Identity, Wireframe}
    && s[6] == DebugInfo
  }

  lemma InitialWellFormed()
    ensures WellFormed(Initial())
  {
  }

  /** `toggleCulling`: slot 0 alternates between culling and the identity. */
  function ToggledCulling(s: seq<Stage>): (r: seq<Stage>)
    requires |s| == 7
  {
    s[0 := if s[0] == BackFaceCulling then Identity else BackFaceCulling]
  }

  /** `toggleShading`: slot 1 alternates between lighting and the identity. */
  function ToggledShading(s: seq<Stage>): (r: seq<Stage>)
    requires |s| == 7
  {
    s[1 := if s[1] == Lighting then Identity else Lighting]
  }

  /** `toggleTexture`: slot 4 moves from `draw` to `drawVoid` (and slot 5
      to the wireframe), from the bound `drawTexture` to `draw`, and from
      anything else to `drawTexture` (slot 5 to the identity in both). */
  function ToggledTexture(s: seq<Stage>): (r: seq<Stage>)
    requires |s| == 7
  {
    if s[4] == Draw then s[4 := DrawVoid][5 := Wireframe]
    else if s[4] == DrawTexture then s[4 := Draw][5 := Identity]
    else s[4 := DrawTexture][5 := Identity]
  }

  /** `toggleWireFrame`: slot 5 becomes the identity when slot 3 holds the
      wireframe stage, and the wireframe stage otherwise. */
  function ToggledWireFrame(s: seq<Stage>): (r: seq<Stage>)
    requires |s| == 7
  {
    s[5 := if s[3] == Wireframe then Identity else Wireframe]
  }

  /** Each toggle keeps the slots well formed. */
  lemma TogglesKeepWellFormed(s: seq<Stage>)
    requires WellFormed(s)
    ensures WellFormed(ToggledCulling(s)) && WellFormed(ToggledShading(s))
    ensures WellFormed(ToggledTexture(s)) && WellFormed(ToggledWireFrame(s))
  {
  }

  /** Culling toggled twice is back where it was, and the toggle touches
      slot 0 only, flipping it between culling and the identity. */
  lemma CullingToggleFlips(s: seq<Stage>)
    requires WellFormed(s)
    ensures ToggledCulling(ToggledCulling(s)) == s
    ensures forall i :: 1 <= i < 7 ==> ToggledCulling(s)[i] == s[i]
    ensures (ToggledCulling(s)[0] == BackFaceCulling) <==> (s[0] == Identity)
  {
  }

  /** The same for shading and slot 1. */
  lemma ShadingToggleFlips(s: seq<Stage>)
    requires WellFormed(s)
    ensures ToggledShading(ToggledShading(s)) == s
    ensures forall i :: 0 <= i < 7 && i != 1 ==> ToggledShading(s)[i] == s[i]
    ensures (ToggledShading(s)[1] == Lighting) <==> (s[1] == Identity)
  {
  }

  /** The stage slot 5 holds after any texture toggle left slot 4 at `d`. */
  function Companion(d: Stage): Stage {
    if d == DrawVoid then Wireframe else Identity
  }

  /** The texture toggle cycles slot 4 through `drawTexture`, `draw` and
      `drawVoid`, setting slot 5 to that stage's companion and nothing
      else; three toggles restore slot 4, and slot 5 too when it holds the
      companion of slot 4. */
  lemma TextureToggleCycles(s: seq<Stage>)
    requires WellFormed(s)
    ensures var r := ToggledTexture(s);
      && r[4] == (match s[4] case DrawTexture => Draw case Draw => DrawVoid case _ => DrawTexture)
      && r[5] == Companion(r[4])
      && (forall i :: 0 <= i < 7 && i != 4 && i != 5 ==> r[i] == s[i])
    ensures ToggledTexture(ToggledTexture(ToggledTexture(s)))[4] == s[4]
    ensures s[5] == Companion(s[4]) ==> ToggledTexture(ToggledTexture(ToggledTexture(s))) == s
  {
  }

  /** Slot 3 never holds the wireframe stage, so `toggleWireFrame` always
      installs it: the toggle is idempotent, and it touches slot 5 only. */
  lemma WireFrameToggleInstalls(s: seq<Stage>)
    requires WellFormed(s)
    ensures ToggledWireFrame(s) == s[5 := Wireframe]
    ensures ToggledWireFrame(ToggledWireFrame(s)) == ToggledWireFrame(s)
  {
  }

  /** The test in `render`: the context is repainted (`clearCTX`) when
      slot 4 is `draw` or is not the bound `drawTexture`; otherwise the
      pixel and depth buffers are reset (`clear`). */
  predicate RepaintsContext(slot4: Stage) {
    slot4 == Draw || slot4 != DrawTexture
  }

  /** So `clear` runs exactly when slot 4 draws textures. */
  lemma ClearIffTextured(slot4: Stage)
    ensures !RepaintsContext(slot4) <==> slot4 == DrawTexture
  {
  }

  /** The mean depth of a triangle, the key `draw` sorts by. */
  function MeanZ(t: Tri): real {
    (t.p0.z + t.p1.z + t.p2.z) / 3.0
  }

  /** Nearest last: mean depths never increase along the list. */
  predicate ByDepth(ts: seq<Tri>) {
    forall i, j :: 0 <= i < j < |ts| ==> MeanZ(ts[i]) >= MeanZ(ts[j])
  }

  /** `t` placed in front of the first triangle whose mean depth is not
      above its own. */
  function Insert(t: Tri, ts: seq<Tri>): (r: seq<Tri>)
  {
    if |ts| == 0 then [t]
    else if MeanZ(ts[0]) <= MeanZ(t) then [t] + ts
    else [ts[0]] + Insert(t, ts[1..])
  }

  /** `tris.sort((a, b) => meanZ(b) - meanZ(a))`, a stable sort: the
      comparator puts the larger mean depth first and keeps the order of
      ties. */
  function SortByDepth(ts: seq<Tri>): (r: seq<Tri>)
  {
    if |ts| == 0 then [] else Insert(ts[0], SortByDepth(ts[1..]))
  }

  /** Putting `t` in front of a list in order whose first mean depth is
      not above its own keeps it in order. */
  lemma ConsByDepth(t: Tri, ts: seq<Tri>)
    requires ByDepth(ts) && (|ts| > 0 ==> MeanZ(ts[0]) <= MeanZ(t))
    ensures ByDepth([t] + ts)
  {
    forall i, j | 0 <= i < j < |[t] + ts|
      ensures MeanZ(([t] + ts)[i]) >= MeanZ(([t] + ts)[j])
    {
      if i == 0 {
        assert MeanZ(ts[j - 1]) <= MeanZ(ts[0]);
      }
    }
  }

  lemma {:induction false} InsertSorted(t: Tri, ts: seq<Tri>)
    requires ByDepth(ts)
    ensures ByDepth(Insert(t, ts))
    ensures |Insert(t, ts)| > 0 && (Insert(t, ts)[0] == t || Insert(t, ts)[0] == ts[0])
  {
    if |ts| > 0 && MeanZ(ts[0]) > MeanZ(t) {
      var rest := ts[1..];
      assert ByDepth(rest);
      InsertSorted(t, rest);
      var r := Insert(t, rest);
      assert MeanZ(r[0]) <= MeanZ(ts[0]) by {
        if |rest| > 0 {
          assert rest[0] == ts[1];
        }
      }
      ConsByDepth(ts[0], r);
    } else {
      ConsByDepth(t, ts);
    }
  }

  /** Inserting adds `t` and loses nothing. */
  lemma {:induction false} InsertPermutes(t: Tri, ts: seq<Tri>)
    ensures multiset(Insert(t, ts)) == multiset(ts) + multiset{t}
  {
    if |ts| > 0 && MeanZ(ts[0]) > MeanZ(t) {
      InsertPermutes(t, ts[1..]);
      assert ts == [ts[0]] + ts[1..];
    }
  }

  /** `draw` returns its input reordered so that mean depth never
      increases: the same triangles, as many times each, farthest first. */
  lemma {:induction false} SortByDepthSorts(ts: seq<Tri>)
    ensures ByDepth(SortByDepth(ts))
    ensures multiset(SortByDepth(ts)) == multiset(ts)
  {
    if |ts| > 0 {
      SortByDepthSorts(ts[1..]);
      InsertSorted(ts[0], SortByDepth(ts[1..]));
      InsertPermutes(ts[0], SortByDepth(ts[1..]));
      assert ts == [ts[0]] + ts[1..];
    }
  }

  /** A list already in order is returned unchanged. */
  lemma {:induction false} SortByDepthKeepsSorted(ts: seq<Tri>)
    requires ByDepth(ts)
    ensures SortByDepth(ts) == ts
  {
    if |ts| > 0 {
      assert ByDepth(ts[1..]);
      SortByDepthKeepsSorted(ts[1..]);
      if |ts| > 1 {
        assert ts[1..][0] == ts[1];
      }
      assert ts == [ts[0]] + ts[1..];
    }
  }

  /** The camera side of `project2D`: every mesh triangle through the
      lens, in order (`flatMap`). */
  function ProjectTris(tris: seq<Tri>, lens: Cameras.Lens): (r: seq<Tri>)
    requires lens.Ready()
    ensures |r| <= 4 * |tris|
  {
    if |tris| == 0 then [] else ProjectTris(tris[..|tris| - 1], lens) + lens.Project(tris[|tris| - 1])
  }

  /** `clip`: every triangle through `frustumClip`, in order. */
  function ClipTris(tris: seq<Tri>): (r: seq<Tri>)
    ensures forall k :: 0 <= k < |r| ==> Cameras.OnScreen(r[k])
  {
    if |tris| == 0 then [] else ClipTris(tris[..|tris| - 1]) + Cameras.FrustumClip(tris[|tris| - 1])
  }

  /** `tris.flatMap(f)`: the pieces of every triangle, in order. */
  function FlatMap(tris: seq<Tri>, f: Tri -> seq<Tri>): (r: seq<Tri>)
  {
    if |tris| == 0 then [] else FlatMap(tris[..|tris| - 1], f) + f(tris[|tris| - 1])
  }

  lemma {:induction false} FlatMapFixes(tris: seq<Tri>, f: Tri -> seq<Tri>)
    requires forall k :: 0 <= k < |tris| ==> f(tris[k]) == [tris[k]]
    ensures FlatMap(tris, f) == tris
  {
    if |tris| > 0 {
      var init := tris[..|tris| - 1];
      FlatMapFixes(init, f);
      assert init + [tris[|tris| - 1]] == tris;
    }
  }

  lemma {:induction false} ClipTrisIsFlatMap(tris: seq<Tri>)
    ensures ClipTris(tris) == FlatMap(tris, Cameras.FrustumClip)
  {
    if |tris| > 0 {
      ClipTrisIsFlatMap(tris[..|tris| - 1]);
    }
  }

  /** A list already on screen passes the frustum clip unchanged. */
  lemma ClipTrisKeepsOnScreen(tris: seq<Tri>)
    requires forall k :: 0 <= k < |tris| ==> Cameras.OnScreen(tris[k])
    ensures ClipTris(tris) == tris
  {
    forall k | 0 <= k < |tris|
      ensures Cameras.FrustumClip(tris[k]) == [tris[k]]
    {
      Cameras.FrustumKeepsOnScreen(tris[k]);
    }
    ClipTrisIsFlatMap(tris);
    FlatMapFixes(tris, Cameras.FrustumClip);
  }

  /** The canvas after `Canvas.TexturedTriangle` for each triangle in turn. */
  function Painted(fr: ImageCanvases.Frame, tris: seq<Tri>, tex: ImageCanvases.Texture, width: int, height: int): (r: ImageCanvases.Frame)
    requires ImageCanvases.Uint32s(fr.depth)
    ensures ImageCanvases.Uint32s(r.depth) && |r.depth| == |fr.depth| && |r.image| == |fr.image|
  {
    if |tris| == 0 then fr
    else
      var t := tris[|tris| - 1];
      ImageCanvases.ApplyAll(Painted(fr, tris[..|tris| - 1], tex, width, height),
                             ImageCanvases.TriangleFrags(t, width as real, height as real), tex, t.l, width)
  }

  /** The state the stages read and write: the mesh's triangles and normals
      and the canvas buffers. */
  datatype Scene = Scene(tris: seq<Tri>, normals: seq<Vec3D>, frame: ImageCanvases.Frame)

  /** What the stages read from the camera and the texture they draw with. */
  datatype Setting = Setting(lens: Cameras.Lens, pos: Vec3D, math: MathLib, tex: ImageCanvases.Texture, width: int, height: int)
  {
    ghost predicate Ready() {
      lens.Ready() && math.Valid()
    }
  }

  /** The camera does not stand on the triangle's first vertex. */
  predicate OffCamera(t: Tri, pos: Vec3D) {
    Size2(Subtract(t.p0, pos)) > 0.0
  }

  /** A scene the stages can run on: a normal per triangle, a camera off
      every triangle's first vertex, and 32-bit depths. */
  ghost predicate Runnable(sc: Scene, st: Setting) {
    && st.Ready() && |sc.normals| >= |sc.tris|
    && (forall i :: 0 <= i < |sc.tris| ==> OffCamera(sc.tris[i], st.pos))
    && ImageCanvases.Uint32s(sc.frame.depth)
  }

  /** The mesh after `cullTris`: the triangles facing the camera and
      their normals. */
  function Culled(sc: Scene, st: Setting): (r: Scene)
    requires Runnable(sc, st)
    ensures Runnable(r, st) && r.frame == sc.frame
  {
    var kept := Cameras.BackFaceCulling(sc.tris, sc.normals, st.pos, st.math);
    var tris := IndexedMeshes.Select(sc.tris, kept);
    assert forall k :: 0 <= k < |tris| ==> tris[k] == sc.tris[kept[k].i];
    Scene(tris, IndexedMeshes.Select(sc.normals, kept), sc.frame)
  }

  /** The mesh after `illuminate`: only the light levels change. */
  function Lit(sc: Scene, st: Setting): (r: Scene)
    requires Runnable(sc, st)
    ensures Runnable(r, st) && r.frame == sc.frame && r.normals == sc.normals
  {
    sc.(tris := IndexedMeshes.Illuminated(sc.tris, sc.normals, st.math))
  }

  /** The list a stage that leaves mesh and canvas alone returns:
      projecting reads the mesh, clipping and sorting transform the input,
      and the stages that only draw on the 2D context pass it on. */
  function Passed(s: Stage, meshTris: seq<Tri>, input: seq<Tri>, lens: Cameras.Lens): (r: seq<Tri>)
    requires lens.Ready()
  {
    match s
    case Project => ProjectTris(meshTris, lens)
    case Clip => ClipTris(input)
    case Draw => SortByDepth(input)
    case _ => input
  }

  /** One stage on the list `input`: the scene it leaves and the list it
      returns. Culling and lighting act on the mesh and return `[]`;
      projecting ignores its input and reads the mesh; clipping and sorting
      transform the list; drawing with texture paints the canvas; the
      wireframe, debug and identity stages only draw on the 2D context, which
      is not part of the scene, and pass their input on. */
  function Run(s: Stage, sc: Scene, input: seq<Tri>, st: Setting): (r: (Scene, seq<Tri>))
    requires Runnable(sc, st)
    ensures Runnable(r.0, st)
  {
    match s
    case BackFaceCulling => (Culled(sc, st), [])
    case Lighting => (Lit(sc, st), [])
    case DrawTexture => (sc.(frame := Painted(sc.frame, input, st.tex, st.width, st.height)), input)
    case _ => (sc, Passed(s, sc.tris, input, st.lens))
  }

  /** `renderSteps.reduce((tris, step) => step(tris), [])` over the first
      `n` slots: the stages run in slot order, each on its predecessor's
      list. */
  function Fold(slots: seq<Stage>, n: nat, sc: Scene, input: seq<Tri>, st: Setting): (r: (Scene, seq<Tri>))
    requires n <= |slots| && Runnable(sc, st)
    ensures Runnable(r.0, st)
  {
    if n == 0 then (sc, input)
    else
      var prev := Fold(slots, n - 1, sc, input, st);
      Run(slots[n - 1], prev.0, prev.1, st)
  }

  /** Culling, lighting and the identity turn the empty list into the
      empty list. */
  lemma MeshStageEmpties(s: Stage, sc: Scene, st: Setting)
    requires s in {BackFaceCulling, Lighting, Identity} && Runnable(sc, st)
    ensures Run(s, sc, [], st).1 == []
  {
  }

  /** Whatever slots 0 and 1 hold, the list they pass on is empty: the
      projection stage's output depends on the mesh alone. It is the
      projection of the mesh those two stages leave. */
  lemma ProjectReadsMeshOnly(slots: seq<Stage>, sc: Scene, st: Setting)
    requires WellFormed(slots) && Runnable(sc, st)
    ensures Fold(slots, 2, sc, [], st).1 == []
    ensures Fold(slots, 3, sc, [], st).1 == ProjectTris(Fold(slots, 2, sc, [], st).0.tris, st.lens)
  {
    EmptyStays(slots, 0, sc, st);
    EmptyStays(slots, 1, sc, st);
    var b := Fold(slots, 2, sc, [], st);
    assert Fold(slots, 3, sc, [], st) == Run(Project, b.0, [], st);
  }

  lemma EmptyStays(slots: seq<Stage>, n: nat, sc: Scene, st: Setting)
    requires n < |slots| && Runnable(sc, st) && slots[n] in {BackFaceCulling, Lighting, Identity}
    requires Fold(slots, n, sc, [], st).1 == []
    ensures Fold(slots, n + 1, sc, [], st).1 == []
  {
    MeshStageEmpties(slots[n], Fold(slots, n, sc, [], st).0, st);
  }

  /** Every triangle that reaches slot 4 has passed the frustum clip and
      lies on screen. */
  lemma DrawnTrianglesOnScreen(slots: seq<Stage>, sc: Scene, st: Setting)
    requires WellFormed(slots) && Runnable(sc, st)
    ensures var r := Fold(slots, 4, sc, [], st).1;
      forall k :: 0 <= k < |r| ==> Cameras.OnScreen(r[k])
  {
  }

  /** The canvas `clear` leaves: zero depths and the saved background. */
  function Cleared(fr: ImageCanvases.Frame, background: seq<int>): (r: ImageCanvases.Frame)
    ensures ImageCanvases.Uint32s(r.depth) && |r.depth| == |fr.depth|
  {
    ImageCanvases.Frame(seq(|fr.depth|, _ => 0), background)
  }

  class RenderPipeline {
    const cam: Cameras.Camera
    const mesh: IndexedMeshes.Mesh
    var renderSteps: array<Stage>

    ghost predicate Valid(math: MathLib)
      reads this, renderSteps, mesh, cam
    {
      && WellFormed(renderSteps[..])
      && mesh.Valid(math) && cam.ProjectionReady(math)
    }

    /** `new RenderPipeline(cam, mesh)`: the initial slots. */
    constructor (cam: Cameras.Camera, mesh: IndexedMeshes.Mesh, math: MathLib)
      requires mesh.Valid(math) && cam.ProjectionReady(math)
      ensures Valid(math) && fresh(renderSteps)
      ensures this.cam == cam && this.mesh == mesh && renderSteps[..] == Initial()
    {
      this.cam := cam;
      this.mesh := mesh;
      renderSteps := new Stage[7][BackFaceCulling, Lighting, Project, Clip, DrawTexture, Identity, DebugInfo];
    }

    method ToggleCulling(ghost math: MathLib)
      requires Valid(math)
      modifies renderSteps
      ensures Valid(math) && renderSteps[..] == ToggledCulling(old(renderSteps[..]))
    {
      TogglesKeepWellFormed(renderSteps[..]);
      renderSteps[0] := if renderSteps[0] == BackFaceCulling then Identity else BackFaceCulling;
    }

    method ToggleShading(ghost math: MathLib)
      requires Valid(math)
      modifies renderSteps
      ensures Valid(math) && renderSteps[..] == ToggledShading(old(renderSteps[..]))
    {
      TogglesKeepWellFormed(renderSteps[..]);
      renderSteps[1] := if renderSteps[1] == Lighting then Identity else Lighting;
    }

    method ToggleTexture(ghost math: MathLib)
      requires Valid(math)
      modifies renderSteps
      ensures Valid(math) && renderSteps[..] == ToggledTexture(old(renderSteps[..]))
    {
      TogglesKeepWellFormed(renderSteps[..]);
      if renderSteps[4] == Draw {
        renderSteps[4] := DrawVoid;
        renderSteps[5] := Wireframe;
      } else if renderSteps[4] == DrawTexture {
        renderSteps[4] := Draw;
        renderSteps[5] := Identity;
      } else {
        renderSteps[4] := DrawTexture;
        renderSteps[5] := Identity;
      }
    }

    method ToggleWireFrame(ghost math: MathLib)
      requires Valid(math)
      modifies renderSteps
      ensures Valid(math) && renderSteps[..] == ToggledWireFrame(old(renderSteps[..]))
    {
      TogglesKeepWellFormed(renderSteps[..]);
      renderSteps[5] := if renderSteps[3] == Wireframe then Identity else Wireframe;
    }

    /** The settings the stages see in the current state. */
    ghost function Current(canvas: ImageCanvases.ImageCanvas, math: MathLib, tex: ImageCanvases.Texture): Setting
      reads this, cam, cam.entity, canvas
      requires cam.ProjectionReady(math)
    {
      Setting(cam.CurrentLens(math), cam.entity.pos, math, tex, canvas.width, canvas.height)
    }

    ghost function SceneOf(canvas: ImageCanvases.ImageCanvas): Scene
      reads this, mesh, canvas, canvas.depthBuffer, canvas.image
    {
      Scene(mesh.tris, mesh.normals, canvas.Snapshot())
    }

    /** `drawTexture`: each triangle textured onto the canvas in turn. */
    method DrawTextures(canvas: ImageCanvases.ImageCanvas, tris: seq<Tri>, tex: ImageCanvases.Texture)
      requires canvas.Valid()
      modifies canvas.depthBuffer, canvas.image
      ensures canvas.Valid()
      ensures canvas.Snapshot() == Painted(old(canvas.Snapshot()), tris, tex, canvas.width, canvas.height)
    {
      ghost var f0 := canvas.Snapshot();
      for i := 0 to |tris|
        invariant canvas.Valid()
        invariant canvas.Snapshot() == Painted(f0, tris[..i], tex, canvas.width, canvas.height)
      {
        assert tris[..i + 1][..i] == tris[..i];
        canvas.TexturedTriangle(tris[i], tex);
      }
      assert tris[..|tris|] == tris;
    }

    /** `backFaceCulling`: the mesh keeps the triangles facing the camera. */
    method Cull(canvas: ImageCanvases.ImageCanvas, math: MathLib, tex: ImageCanvases.Texture, ghost st: Setting)
      requires Valid(math) && st == Current(canvas, math, tex) && Runnable(SceneOf(canvas), st)
      modifies mesh
      ensures Valid(math) && st == Current(canvas, math, tex)
      ensures SceneOf(canvas) == Culled(old(SceneOf(canvas)), st)
    {
      mesh.CullTris(cam, math);
    }

    /** `lighting`: the mesh's triangles take their light levels. */
    method Light(canvas: ImageCanvases.ImageCanvas, math: MathLib, tex: ImageCanvases.Texture, ghost st: Setting)
      requires Valid(math) && st == Current(canvas, math, tex) && Runnable(SceneOf(canvas), st)
      modifies mesh
      ensures Valid(math) && st == Current(canvas, math, tex)
      ensures SceneOf(canvas) == Lit(old(SceneOf(canvas)), st)
    {
      mesh.Illuminate(math);
    }

    /** `drawTexture` as a stage: only the canvas changes. */
    method Paint(canvas: ImageCanvases.ImageCanvas, input: seq<Tri>, math: MathLib, tex: ImageCanvases.Texture, ghost st: Setting)
      requires Valid(math) && canvas.Valid() && st == Current(canvas, math, tex) && Runnable(SceneOf(canvas), st)
      modifies canvas.depthBuffer, canvas.image
      ensures Valid(math) && canvas.Valid() && st == Current(canvas, math, tex)
      ensures SceneOf(canvas) == old(SceneOf(canvas)).(frame := Painted(old(canvas.Snapshot()), input, st.tex, st.width, st.height))
    {
      DrawTextures(canvas, input, tex);
    }

    /** One slot's stage on the list `input`. */
    method RunStage(s: Stage, input: seq<Tri>, canvas: ImageCanvases.ImageCanvas, math: MathLib, tex: ImageCanvases.Texture,
                    ghost st: Setting)
      returns (out: seq<Tri>)
      requires Valid(math) && canvas.Valid() && st == Current(canvas, math, tex) && Runnable(SceneOf(canvas), st)
      modifies mesh, canvas.depthBuffer, canvas.image
      ensures Valid(math) && canvas.Valid() && st == Current(canvas, math, tex)
      ensures (SceneOf(canvas), out) == Run(s, old(SceneOf(canvas)), input, st)
    {
      if s == BackFaceCulling {
        Cull(canvas, math, tex, st);
        out := [];
      } else if s == Lighting {
        Light(canvas, math, tex, st);
        out := [];
      } else if s == DrawTexture {
        Paint(canvas, input, math, tex, st);
        out := input;
      } else {
        out := Passed(s, mesh.tris, input, cam.CurrentLens(math));
      }
    }

    /** Slot `i` run on what the slots before it left. */
    method Advance(ghost slots: seq<Stage>, i: nat, ghost sc0: Scene, input: seq<Tri>,
                   canvas: ImageCanvases.ImageCanvas, math: MathLib, tex: ImageCanvases.Texture, ghost st: Setting)
      returns (out: seq<Tri>)
      requires Valid(math) && canvas.Valid() && st == Current(canvas, math, tex)
      requires slots == renderSteps[..] && i < renderSteps.Length && Runnable(sc0, st)
      requires (SceneOf(canvas), input) == Fold(slots, i, sc0, [], st)
      modifies mesh, canvas.depthBuffer, canvas.image
      ensures Valid(math) && canvas.Valid() && st == Current(canvas, math, tex)
      ensures (SceneOf(canvas), out) == Fold(slots, i + 1, sc0, [], st)
    {
      ghost var prev := Fold(slots, i, sc0, [], st);
      out := RunStage(renderSteps[i], input, canvas, math, tex, st);
      assert Fold(slots, i + 1, sc0, [], st) == Run(slots[i], prev.0, prev.1, st);
    }

    /** `render`: the buffers are reset (or the context repainted), then
        the seven slots run in order starting from the empty list. */
    method Render(canvas: ImageCanvases.ImageCanvas, math: MathLib, tex: ImageCanvases.Texture)
      requires Valid(math) && canvas.Valid()
      requires forall i :: 0 <= i < |mesh.tris| ==> Size2(Subtract(mesh.tris[i].p0, cam.entity.pos)) > 0.0
      modifies mesh, canvas.depthBuffer, canvas.image
      ensures Valid(math) && canvas.Valid()
      ensures var f0 := old(canvas.Snapshot());
        var start := if RepaintsContext(renderSteps[4]) then f0 else Cleared(f0, canvas.emptyImage[..]);
        SceneOf(canvas) == Fold(renderSteps[..], renderSteps.Length, Scene(old(mesh.tris), old(mesh.normals), start), [], Current(canvas, math, tex)).0
    {
      if !RepaintsContext(renderSteps[4]) {
        canvas.Clear();
        assert canvas.Snapshot().depth == seq(canvas.depthBuffer.Length, _ => 0);
      }
      RunSlots(canvas, math, tex);
    }

    /** The `reduce` in `render`: each slot's stage on the list the previous
        slot returned, starting from the empty list. */
    method RunSlots(canvas: ImageCanvases.ImageCanvas, math: MathLib, tex: ImageCanvases.Texture)
      requires Valid(math) && canvas.Valid() && Runnable(SceneOf(canvas), Current(canvas, math, tex))
      modifies mesh, canvas.depthBuffer, canvas.image
      ensures Valid(math) && canvas.Valid()
      ensures SceneOf(canvas) == Fold(renderSteps[..], renderSteps.Length, old(SceneOf(canvas)), [], Current(canvas, math, tex)).0
    {
      ghost var sc0 := SceneOf(canvas);
      ghost var st := Current(canvas, math, tex);
      ghost var slots := renderSteps[..];
      var tris: seq<Tri> := [];
      for i := 0 to renderSteps.Length
        invariant Valid(math) && canvas.Valid() && st == Current(canvas, math, tex)
        invariant (SceneOf(canvas), tris) == Fold(slots, i, sc0, [], st)
      {
        tris := Advance(slots, i, sc0, tris, canvas, math, tex, st);
      }
    }
  }
}
