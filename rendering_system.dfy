/** The rendering system's bookkeeping: the grid that buckets point lights by their (x, z) cell, the
    query of the 3 x 3 cells around an object, the choice of the lights bound for a mesh (gated by
    the distance to the nearest level-of-detail loader), the active 3D shader, and the order in which
    one frame's draw calls are issued over the mesh, line, 3D, transparent, sprite and UI passes.

    Distances are compared through their squares: the square root is monotone, so a distance below
    the threshold 5 is a squared distance below 25, and sorting by distance is sorting by squared
    distance. */
module Rendering {
  import opened Wrappers
  import opened Vectors
  import opened Sorting

  const CELL_SIZE: real := 40.0
  const MAX_LIGHTS: nat := 1
  /** DIST_THRESHOLD (5.0), squared. */
  const DIST_THRESHOLD_SQ: real := 25.0
  /** The starting value of lodDist (1e17), squared: the distance taken when no loader is nearer. */
  const NO_LOADER_DIST_SQ: real := 100000000000000000.0 * 100000000000000000.0

  const DEFAULT_SHADER: string := "Blinn-Phong"
  /** shaderNameDict: the selectable 3D shaders and the resource names of their programs. */
  const ShaderNameDict: map<string, string> := map[
    "Blinn-Phong" := "Blinn-Phong Shader",
    "Cook-Torrance" := "Cook-Torrance Shader",
    "Toon" := "Toon Shader",
    "Depth" := "Depth Mapping",
    "Glassy" := "Glassy Shader"]

  // ---------------------------------------------------------------------------------------------
  // The light grid.

  /** A grid cell: the (x, z) cell coordinates. */
  type Cell = (int, int)
  /** LightGrid: the owner ids of the point lights of each cell, in the order they were added. */
  type LightGrid = map<Cell, seq<int>>

  /** WorldToCell: the cell of a position, floor(x / 40) and floor(z / 40); y plays no part. */
  function WorldToCell(pos: Vec3): (c: Cell)
    ensures CELL_SIZE * (c.0 as real) <= pos.x < CELL_SIZE * ((c.0 + 1) as real)
    ensures CELL_SIZE * (c.1 as real) <= pos.z < CELL_SIZE * ((c.1 + 1) as real)
  {
    ((pos.x / CELL_SIZE).Floor, (pos.z / CELL_SIZE).Floor)
  }

  /** The cell of a position is the one cell whose 40 x 40 square holds its x and z. */
  lemma WorldToCellUnique(pos: Vec3, c: Cell)
    ensures WorldToCell(pos) == c <==>
      CELL_SIZE * (c.0 as real) <= pos.x < CELL_SIZE * ((c.0 + 1) as real) &&
      CELL_SIZE * (c.1 as real) <= pos.z < CELL_SIZE * ((c.1 + 1) as real)
  {
    var d := WorldToCell(pos);
    if CELL_SIZE * (c.0 as real) <= pos.x < CELL_SIZE * ((c.0 + 1) as real) {
      assert c.0 <= d.0 && d.0 <= c.0;
    }
    if CELL_SIZE * (c.1 as real) <= pos.z < CELL_SIZE * ((c.1 + 1) as real) {
      assert c.1 <= d.1 && d.1 <= c.1;
    }
  }

  /** A PointLight component: its owner entity and its position (the owner's global position). */
  datatype LightSource = LightSource(owner: int, pos: Vec3)

  function CellOf(l: LightSource): Cell
  {
    WorldToCell(l.pos)
  }

  /** LightGrid[cell].push_back(owner): the subscript first inserts an empty list for a new cell. */
  function PushLight(g: LightGrid, c: Cell, owner: int): LightGrid
  {
    g[c := (if c in g then g[c] else []) + [owner]]
  }

  /** The grid BuildLightGrid produces from the point lights, visited in component order. */
  function GridOf(lights: seq<LightSource>): LightGrid
  {
    if lights == [] then map[]
    else
      var l := lights[|lights| - 1];
      PushLight(GridOf(lights[..|lights| - 1]), CellOf(l), l.owner)
  }

  /** The owners of the lights that lie in cell c, in component order. */
  function OwnersIn(lights: seq<LightSource>, c: Cell): seq<int>
  {
    if lights == [] then []
    else
      var l := lights[|lights| - 1];
      OwnersIn(lights[..|lights| - 1], c) + (if CellOf(l) == c then [l.owner] else [])
  }

  /** The grid lists, for every cell and no other, exactly the owners of the lights in it, in
      component order: each light has one entry, in its own cell. */
  lemma {:induction false} GridOfContents(lights: seq<LightSource>, c: Cell)
    ensures c in GridOf(lights) <==> OwnersIn(lights, c) != []
    ensures c in GridOf(lights) ==> GridOf(lights)[c] == OwnersIn(lights, c)
    decreases |lights|
  {
    if lights != [] {
      GridOfContents(lights[..|lights| - 1], c);
    }
  }

  /** An owner appears in a cell's list exactly when one of its lights lies in that cell. */
  lemma {:induction false} OwnersInMembers(lights: seq<LightSource>, c: Cell, o: int)
    ensures o in OwnersIn(lights, c) <==> exists i :: 0 <= i < |lights| && lights[i].owner == o && CellOf(lights[i]) == c
    decreases |lights|
  {
    if lights != [] {
      var init := lights[..|lights| - 1];
      OwnersInMembers(init, c, o);
      assert forall i :: 0 <= i < |init| ==> init[i] == lights[i];
      if o in OwnersIn(init, c) {
        var i :| 0 <= i < |init| && init[i].owner == o && CellOf(init[i]) == c;
        assert lights[i] == init[i];
      }
    }
  }

  /** The lists of the cells (c.0 + dx, c.1 - 1) up to (c.0 + dx, c.1 + n - 2): the first n turns of
      QueryNearbyLights' inner loop. */
  function Column(g: LightGrid, c: Cell, dx: int, n: nat): seq<int>
  {
    if n == 0 then []
    else
      var nc := (c.0 + dx, c.1 + n - 2);
      Column(g, c, dx, n - 1) + (if nc in g then g[nc] else [])
  }

  /** The first m turns of the outer loop, dx from -1 up to m - 2. */
  function Block(g: LightGrid, c: Cell, m: nat): seq<int>
  {
    if m == 0 then [] else Block(g, c, m - 1) + Column(g, c, m - 2, 3)
  }

  /** Cell d is c or one of its eight neighbours. */
  predicate Near(c: Cell, d: Cell)
  {
    -1 <= d.0 - c.0 <= 1 && -1 <= d.1 - c.1 <= 1
  }

  lemma {:induction false} ColumnMembers(g: LightGrid, c: Cell, dx: int, n: nat, o: int)
    ensures o in Column(g, c, dx, n) <==>
      exists d :: d in g && d.0 == c.0 + dx && c.1 - 1 <= d.1 <= c.1 + n - 2 && o in g[d]
  {
    if n > 0 {
      ColumnMembers(g, c, dx, n - 1, o);
      var nc := (c.0 + dx, c.1 + n - 2);
      if exists d :: d in g && d.0 == c.0 + dx && c.1 - 1 <= d.1 <= c.1 + n - 2 && o in g[d] {
        var d :| d in g && d.0 == c.0 + dx && c.1 - 1 <= d.1 <= c.1 + n - 2 && o in g[d];
        if d.1 == c.1 + n - 2 {
          assert d == nc;
        }
      }
    }
  }

  lemma {:induction false} BlockMembers(g: LightGrid, c: Cell, m: nat, o: int)
    requires m <= 3
    ensures o in Block(g, c, m) <==> exists d :: d in g && Near(c, d) && d.0 <= c.0 + m - 2 && o in g[d]
  {
    if m > 0 {
      BlockMembers(g, c, m - 1, o);
      ColumnMembers(g, c, m - 2, 3, o);
    }
  }

  /** QueryNearbyLights returns an id exactly when some cell around the object lists it. */
  lemma NearbyMembers(g: LightGrid, c: Cell, o: int)
    ensures o in Block(g, c, 3) <==> exists d :: d in g && Near(c, d) && o in g[d]
  {
    BlockMembers(g, c, 3, o);
  }

  /** Against a freshly built grid: an owner is found near a position exactly when one of its lights
      lies in the position's cell or in a neighbouring one. */
  lemma QueryFindsNearbyLights(lights: seq<LightSource>, pos: Vec3, o: int)
    ensures o in Block(GridOf(lights), WorldToCell(pos), 3) <==>
      exists i :: 0 <= i < |lights| && lights[i].owner == o && Near(WorldToCell(pos), CellOf(lights[i]))
  {
    var g, c := GridOf(lights), WorldToCell(pos);
    NearbyMembers(g, c, o);
    if exists d :: d in g && Near(c, d) && o in g[d] {
      var d :| d in g && Near(c, d) && o in g[d];
      GridOfContents(lights, d);
      OwnersInMembers(lights, d, o);
    }
    if exists i :: 0 <= i < |lights| && lights[i].owner == o && Near(c, CellOf(lights[i])) {
      var i :| 0 <= i < |lights| && lights[i].owner == o && Near(c, CellOf(lights[i]));
      var d := CellOf(lights[i]);
      OwnersInMembers(lights, d, o);
      GridOfContents(lights, d);
      assert d in g && Near(c, d) && o in g[d];
    }
  }

  // ---------------------------------------------------------------------------------------------
  // Level of detail and light selection (the lighting half of PrepareDraw).

  function Min(a: real, b: real): real
  {
    if a <= b then a else b
  }

  /** lodDist after the loop over the loaders, squared. */
  function MinDistSq(loaders: seq<Vec3>, pos: Vec3): real
  {
    if loaders == [] then NO_LOADER_DIST_SQ
    else Min(MinDistSq(loaders[..|loaders| - 1], pos), DistSq(loaders[|loaders| - 1], pos))
  }

  /** The nearest loader is within the threshold exactly when some loader is. */
  lemma {:induction false} MinDistSqBelow(loaders: seq<Vec3>, pos: Vec3)
    ensures MinDistSq(loaders, pos) < DIST_THRESHOLD_SQ <==>
      exists i :: 0 <= i < |loaders| && DistSq(loaders[i], pos) < DIST_THRESHOLD_SQ
    decreases |loaders|
  {
    if loaders != [] {
      var init := loaders[..|loaders| - 1];
      MinDistSqBelow(init, pos);
      assert forall i :: 0 <= i < |init| ==> init[i] == loaders[i];
      if exists i :: 0 <= i < |init| && DistSq(init[i], pos) < DIST_THRESHOLD_SQ {
        var i :| 0 <= i < |init| && DistSq(init[i], pos) < DIST_THRESHOLD_SQ;
        assert loaders[i] == init[i];
      }
    }
  }

  /** The global positions of the loaders, in the order they were marked. */
  function PositionsOf(ids: seq<int>, at: map<int, Vec3>): (r: seq<Vec3>)
    requires forall i :: 0 <= i < |ids| ==> ids[i] in at
    ensures |r| == |ids| && forall i :: 0 <= i < |ids| ==> r[i] == at[ids[i]]
  {
    if ids == [] then [] else PositionsOf(ids[..|ids| - 1], at) + [at[ids[|ids| - 1]]]
  }

  /** PrepareDraw's loop over the loaders: lodDist ends as the smallest (squared) distance. */
  method NearestLoader(loaderPos: seq<Vec3>, pos: Vec3) returns (lodDist: real)
    ensures lodDist == MinDistSq(loaderPos, pos)
    ensures lodDist <= NO_LOADER_DIST_SQ
    ensures forall i :: 0 <= i < |loaderPos| ==> lodDist <= DistSq(loaderPos[i], pos)
  {
    lodDist := NO_LOADER_DIST_SQ;
    if |loaderPos| > 0 {
      var i := 0;
      while i < |loaderPos|
        invariant 0 <= i <= |loaderPos| && lodDist == MinDistSq(loaderPos[..i], pos)
        invariant lodDist <= NO_LOADER_DIST_SQ
        invariant forall j :: 0 <= j < i ==> lodDist <= DistSq(loaderPos[j], pos)
      {
        assert loaderPos[..i + 1][..i] == loaderPos[..i];
        lodDist := Min(lodDist, DistSq(loaderPos[i], pos));
        i := i + 1;
      }
      assert loaderPos[..i] == loaderPos;
    }
  }

  /** Some loader is within the threshold exactly when the nearest one is. */
  lemma LoaderWithin(ids: seq<int>, at: map<int, Vec3>, pos: Vec3)
    requires forall i :: 0 <= i < |ids| ==> ids[i] in at
    ensures MinDistSq(PositionsOf(ids, at), pos) < DIST_THRESHOLD_SQ <==>
      exists i :: 0 <= i < |ids| && DistSq(at[ids[i]], pos) < DIST_THRESHOLD_SQ
  {
    var ps := PositionsOf(ids, at);
    MinDistSqBelow(ps, pos);
    if exists i :: 0 <= i < |ids| && DistSq(at[ids[i]], pos) < DIST_THRESHOLD_SQ {
      var i :| 0 <= i < |ids| && DistSq(at[ids[i]], pos) < DIST_THRESHOLD_SQ;
      assert DistSq(ps[i], pos) < DIST_THRESHOLD_SQ;
    }
  }

  /** A light considered for a mesh: the light's owner and its squared distance to the mesh. */
  datatype Entry = Entry(light: int, dist2: real)

  function ByDistance(e: Entry): real
  {
    e.dist2
  }

  /** The entries built from the ids the grid query returned: ids whose entity is gone or has no
      PointLight are skipped. lightAt maps each live entity with a PointLight to that light's
      position. */
  function EntriesOf(results: seq<int>, lightAt: map<int, Vec3>, pos: Vec3): seq<Entry>
  {
    if results == [] then []
    else
      var id := results[|results| - 1];
      EntriesOf(results[..|results| - 1], lightAt, pos)
        + (if id in lightAt then [Entry(id, DistSq(lightAt[id], pos))] else [])
  }

  /** An entry is made for a returned id exactly when that id has a live PointLight, and it carries
      that light's squared distance. */
  lemma {:induction false} EntriesOfMembers(results: seq<int>, lightAt: map<int, Vec3>, pos: Vec3, e: Entry)
    ensures e in EntriesOf(results, lightAt, pos) <==>
      e.light in results && e.light in lightAt && e.dist2 == DistSq(lightAt[e.light], pos)
    decreases |results|
  {
    if results != [] {
      var init := results[..|results| - 1];
      EntriesOfMembers(init, lightAt, pos, e);
      assert results == init + [results[|results| - 1]];
    }
  }

  /** PrepareDraw's loop over the query results, building one entry per live point light. */
  method CollectEntries(results: seq<int>, lightAt: map<int, Vec3>, pos: Vec3) returns (list: seq<Entry>)
    ensures list == EntriesOf(results, lightAt, pos)
    ensures forall e :: e in list <==> e.light in results && e.light in lightAt && e.dist2 == DistSq(lightAt[e.light], pos)
  {
    list := [];
    var k := 0;
    while k < |results|
      invariant 0 <= k <= |results| && list == EntriesOf(results[..k], lightAt, pos)
    {
      assert results[..k + 1][..k] == results[..k];
      var id := results[k];
      if id in lightAt {
        list := list + [Entry(id, DistSq(lightAt[id], pos))];
      }
      k := k + 1;
    }
    assert results[..k] == results;
    forall e ensures e in list <==> e.light in results && e.light in lightAt && e.dist2 == DistSq(lightAt[e.light], pos) {
      EntriesOfMembers(results, lightAt, pos, e);
    }
  }

  /** The lights bound for a mesh after sorting by distance and truncating to MAX_LIGHTS. */
  function Selected(entries: seq<Entry>): seq<Entry>
  {
    var sorted := SortBy(entries, ByDistance);
    if |sorted| > MAX_LIGHTS then sorted[..MAX_LIGHTS] else sorted
  }

  /** The lighting a mesh is drawn with: LOD 0 (ambient only), or LOD 1 with the bound lights;
      nLights is the number of bound lights. */
  datatype Lighting = Ambient | Lit(lights: seq<Entry>)

  /** The selection keeps min(count, MAX_LIGHTS) of the candidates, nearest first, and none of the
      candidates left out is nearer than one that was kept. */
  lemma SelectedNearest(entries: seq<Entry>)
    ensures var s := Selected(entries);
      && |s| == (if |entries| < MAX_LIGHTS then |entries| else MAX_LIGHTS)
      && SortedBy(s, ByDistance)
      && (forall e :: e in s ==> e in entries)
      && (forall i, e :: 0 <= i < |s| && e in entries && e !in s ==> s[i].dist2 <= e.dist2)
  {
    SortedTake(entries, ByDistance, MAX_LIGHTS);
  }

  // ---------------------------------------------------------------------------------------------
  // One frame's draw calls.

  /** What the lighting of a mesh depends on: the light grid, the loaders' global positions and the
      live entities' point lights. */
  datatype LightEnv = LightEnv(grid: LightGrid, loaderPos: seq<Vec3>, lightAt: map<int, Vec3>)

  /** The lighting PrepareDraw gives a mesh at pos: LOD 1 and the nearest lights of the 3 x 3 cells
      around it when a loader is within the threshold, LOD 0 otherwise. */
  function LightingFor(env: LightEnv, pos: Vec3): Lighting
  {
    if MinDistSq(env.loaderPos, pos) < DIST_THRESHOLD_SQ
    then Lit(Selected(EntriesOf(Block(env.grid, WorldToCell(pos), 3), env.lightAt, pos)))
    else Ambient
  }

  /** Lighting is computed exactly when a loader is within the threshold, and then every bound light
      is a live point light in a cell around the mesh, at most MAX_LIGHTS are bound, and no candidate
      left out is nearer than one bound. */
  lemma LightingForBound(env: LightEnv, pos: Vec3)
    ensures LightingFor(env, pos).Lit? <==>
      exists i :: 0 <= i < |env.loaderPos| && DistSq(env.loaderPos[i], pos) < DIST_THRESHOLD_SQ
    ensures LightingFor(env, pos).Lit? ==>
      var candidates := EntriesOf(Block(env.grid, WorldToCell(pos), 3), env.lightAt, pos);
      var bound := LightingFor(env, pos).lights;
      && |bound| <= MAX_LIGHTS && |bound| <= |candidates| && SortedBy(bound, ByDistance)
      && (|candidates| > 0 ==> |bound| > 0)
      && (forall e :: e in bound ==>
            e.light in env.lightAt && e.dist2 == DistSq(env.lightAt[e.light], pos) &&
            exists d :: d in env.grid && Near(WorldToCell(pos), d) && e.light in env.grid[d])
      && (forall i, e :: 0 <= i < |bound| && e in candidates && e !in bound ==> bound[i].dist2 <= e.dist2)
  {
    MinDistSqBelow(env.loaderPos, pos);
    var results := Block(env.grid, WorldToCell(pos), 3);
    var candidates := EntriesOf(results, env.lightAt, pos);
    SelectedNearest(candidates);
    forall e | e in Selected(candidates)
      ensures e.light in env.lightAt && e.dist2 == DistSq(env.lightAt[e.light], pos)
      ensures exists d :: d in env.grid && Near(WorldToCell(pos), d) && e.light in env.grid[d]
    {
      EntriesOfMembers(results, env.lightAt, pos, e);
      NearbyMembers(env.grid, WorldToCell(pos), e.light);
    }
  }

  /** A Mesh3D: its entity, the opacity of its Renderer's material (None without a Renderer), and
      the entity's global position. */
  datatype Mesh3DInfo = Mesh3DInfo(id: int, opacity: Option<real>, pos: Vec3)
  /** A SpriteMesh: its entity, its Renderer's layer (None without a Renderer), and the z of the
      entity's global position. */
  datatype SpriteInfo = SpriteInfo(id: int, layer: Option<string>, z: real)

  /** What the frame's components are: the point lights in component order, the live entities with
      a PointLight and its position, every entity's global position, and the meshes by kind, each in
      component order. */
  datatype Scene = Scene(
    lights: seq<LightSource>,
    lightAt: map<int, Vec3>,
    positionOf: map<int, Vec3>,
    meshes2D: seq<int>,
    lines: seq<int>,
    meshes3D: seq<Mesh3DInfo>,
    sprites: seq<SpriteInfo>)

  /** The passes the 3D meshes are drawn in. */
  datatype Pass3D = Opaque | BackDepth | FrontDepth | Glassy

  /** The calls a frame issues, in order: a shader program made active (Apply), or a mesh drawn; 3D
      meshes drawn through PrepareDraw carry the lighting they were given. */
  datatype DrawCall =
    | UseShader(name: string)
    | DrawMesh2D(id: int)
    | DrawLine(id: int)
    | Draw3D(pass: Pass3D, id: int, lighting: Option<Lighting>)
    | DrawSprite(id: int)
    | DrawOverlay(id: int)

  /** A mesh goes to the transparent passes exactly when it has a Renderer of opacity other than 1. */
  predicate IsTransparent(m: Mesh3DInfo)
  {
    m.opacity.Some? && m.opacity.value != 1.0
  }

  /** A sprite is drawn in the sprite pass when it has a Renderer whose layer is not "UI". */
  predicate IsWorldSprite(s: SpriteInfo)
  {
    s.layer.Some? && s.layer != Some("UI")
  }

  predicate IsUISprite(s: SpriteInfo)
  {
    s.layer == Some("UI")
  }

  /** CompareZValues: a sprite is drawn before another when its global z is smaller. */
  predicate CompareZValues(a: SpriteInfo, b: SpriteInfo)
  {
    a.z < b.z
  }

  function ByDepth(s: SpriteInfo): real
  {
    s.z
  }

  /** The meshes the 3D pass sets aside as transparent, in component order. */
  function TransparentOf(ms: seq<Mesh3DInfo>): seq<Mesh3DInfo>
  {
    if ms == [] then []
    else TransparentOf(ms[..|ms| - 1]) + (if IsTransparent(ms[|ms| - 1]) then [ms[|ms| - 1]] else [])
  }

  /** The sprites the sprite pass sets aside for the UI overlay, in component order. */
  function UISpritesOf(ss: seq<SpriteInfo>): seq<SpriteInfo>
  {
    if ss == [] then []
    else UISpritesOf(ss[..|ss| - 1]) + (if IsUISprite(ss[|ss| - 1]) then [ss[|ss| - 1]] else [])
  }

  /** The transparent list holds exactly the transparent meshes. */
  lemma {:induction false} TransparentOfMembers(ms: seq<Mesh3DInfo>, m: Mesh3DInfo)
    ensures m in TransparentOf(ms) <==> m in ms && IsTransparent(m)
    decreases |ms|
  {
    if ms != [] {
      TransparentOfMembers(ms[..|ms| - 1], m);
      assert ms == ms[..|ms| - 1] + [ms[|ms| - 1]];
    }
  }

  /** The UI list holds exactly the sprites whose Renderer is on the "UI" layer. */
  lemma {:induction false} UISpritesOfMembers(ss: seq<SpriteInfo>, s: SpriteInfo)
    ensures s in UISpritesOf(ss) <==> s in ss && IsUISprite(s)
    decreases |ss|
  {
    if ss != [] {
      UISpritesOfMembers(ss[..|ss| - 1], s);
      assert ss == ss[..|ss| - 1] + [ss[|ss| - 1]];
    }
  }

  /** The calls of one forEachComponent pass over the 2D meshes (line false) or the lines. */
  function FlatCalls(ids: seq<int>, line: bool): seq<DrawCall>
  {
    if ids == [] then []
    else
      var id := ids[|ids| - 1];
      FlatCalls(ids[..|ids| - 1], line) + [if line then DrawLine(id) else DrawMesh2D(id)]
  }

  /** The opaque pass: every mesh that is not transparent, drawn with its lighting. */
  function OpaqueCalls(ms: seq<Mesh3DInfo>, env: LightEnv): seq<DrawCall>
  {
    if ms == [] then []
    else
      var m := ms[|ms| - 1];
      OpaqueCalls(ms[..|ms| - 1], env)
        + (if IsTransparent(m) then [] else [Draw3D(Opaque, m.id, Some(LightingFor(env, m.pos)))])
  }

  /** One of the two depth passes over the transparent meshes: geometry only, no lighting. */
  function DepthCalls(ms: seq<Mesh3DInfo>, pass: Pass3D): seq<DrawCall>
  {
    if ms == [] then [] else DepthCalls(ms[..|ms| - 1], pass) + [Draw3D(pass, ms[|ms| - 1].id, None)]
  }

  /** The glassy pass over the transparent meshes, each drawn through PrepareDraw. */
  function GlassyCalls(ms: seq<Mesh3DInfo>, env: LightEnv): seq<DrawCall>
  {
    if ms == [] then []
    else
      var m := ms[|ms| - 1];
      GlassyCalls(ms[..|ms| - 1], env) + [Draw3D(Glassy, m.id, Some(LightingFor(env, m.pos)))]
  }

  /** The sprite pass: sprites without a Renderer are skipped and "UI" sprites are held back. */
  function SpriteCalls(ss: seq<SpriteInfo>): seq<DrawCall>
  {
    if ss == [] then []
    else
      var s := ss[|ss| - 1];
      SpriteCalls(ss[..|ss| - 1]) + (if IsWorldSprite(s) then [DrawSprite(s.id)] else [])
  }

  function OverlayCalls(ss: seq<SpriteInfo>): seq<DrawCall>
  {
    if ss == [] then [] else OverlayCalls(ss[..|ss| - 1]) + [DrawOverlay(ss[|ss| - 1].id)]
  }

  /** The Mesh2D pass: the default shader is applied only when there is a Mesh2D. */
  function Mesh2DPart(ids: seq<int>): seq<DrawCall>
  {
    if ids == [] then [] else [UseShader("Default Shader")] + FlatCalls(ids, false)
  }

  /** The transparent passes, run only when some mesh was set aside: the back and front depth
      passes with the "Depth" program, then the glassy pass with the "Glassy" program. */
  function TransparentPart(t: seq<Mesh3DInfo>, env: LightEnv): seq<DrawCall>
  {
    if t == [] then []
    else
      [UseShader(ShaderNameDict["Depth"])] + DepthCalls(t, BackDepth) + DepthCalls(t, FrontDepth)
      + [UseShader(ShaderNameDict["Glassy"])] + GlassyCalls(t, env)
  }

  /** The sprite pass: the sprite shader is applied only when there is a SpriteMesh. */
  function SpritePart(ss: seq<SpriteInfo>): seq<DrawCall>
  {
    if ss == [] then [] else [UseShader("Sprite Shader")] + SpriteCalls(ss)
  }

  /** The overlay: nothing when no sprite is on the UI layer; otherwise the UI shader and the UI
      sprites in ascending z. */
  function OverlayPart(ui: seq<SpriteInfo>): seq<DrawCall>
  {
    if ui == [] then [] else [UseShader("UI Shader")] + OverlayCalls(SortBy(ui, ByDepth))
  }

  /** The whole frame, given the program of the active 3D shader and the lighting environment. */
  function FrameCalls(scene: Scene, program3D: string, env: LightEnv): seq<DrawCall>
  {
    Mesh2DPart(scene.meshes2D) + FlatCalls(scene.lines, true)
    + [UseShader(program3D)] + OpaqueCalls(scene.meshes3D, env)
    + TransparentPart(TransparentOf(scene.meshes3D), env)
    + SpritePart(scene.sprites) + OverlayPart(UISpritesOf(scene.sprites))
  }

  /** The opaque pass draws exactly the meshes that are not transparent, each with its lighting. */
  lemma {:induction false} OpaqueCallsMembers(ms: seq<Mesh3DInfo>, env: LightEnv, c: DrawCall)
    ensures c in OpaqueCalls(ms, env) <==>
      exists m :: m in ms && !IsTransparent(m) && c == Draw3D(Opaque, m.id, Some(LightingFor(env, m.pos)))
    decreases |ms|
  {
    if ms != [] {
      OpaqueCallsMembers(ms[..|ms| - 1], env, c);
      assert ms == ms[..|ms| - 1] + [ms[|ms| - 1]];
    }
  }

  /** The glassy pass draws the transparent meshes, each with its lighting. */
  lemma {:induction false} GlassyCallsMembers(ms: seq<Mesh3DInfo>, env: LightEnv, c: DrawCall)
    ensures c in GlassyCalls(ms, env) <==>
      exists m :: m in ms && c == Draw3D(Glassy, m.id, Some(LightingFor(env, m.pos)))
    decreases |ms|
  {
    if ms != [] {
      GlassyCallsMembers(ms[..|ms| - 1], env, c);
      assert ms == ms[..|ms| - 1] + [ms[|ms| - 1]];
    }
  }

  /** The sprite pass draws exactly the sprites that have a Renderer off the "UI" layer. */
  lemma {:induction false} SpriteCallsMembers(ss: seq<SpriteInfo>, id: int)
    ensures DrawSprite(id) in SpriteCalls(ss) <==> exists s :: s in ss && IsWorldSprite(s) && s.id == id
    decreases |ss|
  {
    if ss != [] {
      SpriteCallsMembers(ss[..|ss| - 1], id);
      assert ss == ss[..|ss| - 1] + [ss[|ss| - 1]];
    }
  }

  /** The overlay calls name the sorted sprites one for one. */
  lemma {:induction false} OverlayCallsShape(ss: seq<SpriteInfo>)
    ensures |OverlayCalls(ss)| == |ss|
    ensures forall i :: 0 <= i < |ss| ==> OverlayCalls(ss)[i] == DrawOverlay(ss[i].id)
    decreases |ss|
  {
    if ss != [] {
      OverlayCallsShape(ss[..|ss| - 1]);
    }
  }

  /** The UI overlay draws exactly the UI sprites, one call each, in ascending z: no sprite is drawn
      after one that CompareZValues puts behind it. */
  lemma OverlayOrder(ss: seq<SpriteInfo>)
    ensures var ui := SortBy(UISpritesOf(ss), ByDepth);
      && multiset(ui) == multiset(UISpritesOf(ss))
      && (forall i, j :: 0 <= i < j < |ui| ==> !CompareZValues(ui[j], ui[i]))
      && (forall s :: s in ui <==> s in ss && IsUISprite(s))
      && |OverlayCalls(ui)| == |ui|
      && (forall i :: 0 <= i < |ui| ==> OverlayCalls(ui)[i] == DrawOverlay(ui[i].id))
  {
    var ui := SortBy(UISpritesOf(ss), ByDepth);
    forall s ensures s in ui <==> s in ss && IsUISprite(s) {
      SortByMembers(UISpritesOf(ss), ByDepth, s);
      UISpritesOfMembers(ss, s);
    }
    OverlayCallsShape(ui);
  }

  /** The depth passes draw the transparent meshes, geometry only. */
  lemma {:induction false} DepthCallsMembers(ms: seq<Mesh3DInfo>, pass: Pass3D, c: DrawCall)
    ensures c in DepthCalls(ms, pass) <==> exists m :: m in ms && c == Draw3D(pass, m.id, None)
    decreases |ms|
  {
    if ms != [] {
      DepthCallsMembers(ms[..|ms| - 1], pass, c);
      assert ms == ms[..|ms| - 1] + [ms[|ms| - 1]];
    }
  }

  /** Each 3D mesh is drawn with its lighting: a transparent one in both depth passes and then in
      the glassy pass, any other in the opaque pass. */
  lemma MeshPasses(ms: seq<Mesh3DInfo>, env: LightEnv, m: Mesh3DInfo)
    requires m in ms
    ensures IsTransparent(m) ==>
      var t := TransparentOf(ms);
      && Draw3D(BackDepth, m.id, None) in DepthCalls(t, BackDepth)
      && Draw3D(FrontDepth, m.id, None) in DepthCalls(t, FrontDepth)
      && Draw3D(Glassy, m.id, Some(LightingFor(env, m.pos))) in GlassyCalls(t, env)
    ensures !IsTransparent(m) ==> Draw3D(Opaque, m.id, Some(LightingFor(env, m.pos))) in OpaqueCalls(ms, env)
  {
    var t := TransparentOf(ms);
    TransparentOfMembers(ms, m);
    DepthCallsMembers(t, BackDepth, Draw3D(BackDepth, m.id, None));
    DepthCallsMembers(t, FrontDepth, Draw3D(FrontDepth, m.id, None));
    GlassyCallsMembers(t, env, Draw3D(Glassy, m.id, Some(LightingFor(env, m.pos))));
    OpaqueCallsMembers(ms, env, Draw3D(Opaque, m.id, Some(LightingFor(env, m.pos))));
  }

  // ---------------------------------------------------------------------------------------------

  /** The rendering system's state: the light grid, the level-of-detail loaders (entity ids, in the
      order they were marked), the specular factor and the active 3D shader's name. */
  class RenderingSystem {
    var lightGrid: LightGrid
    var loaders: seq<int>
    var specularFactor: real
    var active3DShader: string

    /** The active 3D shader is always a key of shaderNameDict, so Draw's lookup of it succeeds. */
    ghost predicate Valid()
      reads this
    {
      active3DShader in ShaderNameDict
    }

    constructor ()
      ensures Valid() && lightGrid == map[] && loaders == [] && specularFactor == 1.0
      ensures active3DShader == DEFAULT_SHADER
    {
      lightGrid := map[];
      loaders := [];
      specularFactor := 1.0;
      active3DShader := DEFAULT_SHADER;
    }

    method MarkAsLoader(id: int)
      modifies this
      ensures loaders == old(loaders) + [id]
      ensures lightGrid == old(lightGrid) && specularFactor == old(specularFactor) && active3DShader == old(active3DShader)
    {
      loaders := loaders + [id];
    }

    method SetSpecularFactor(v: real)
      modifies this
      ensures specularFactor == v
      ensures lightGrid == old(lightGrid) && loaders == old(loaders) && active3DShader == old(active3DShader)
    {
      specularFactor := v;
    }

    /** SetActiveShader: the shader changes only to a name shaderNameDict knows; any other name
        only draws a warning. */
    method SetActiveShader(name: string)
      requires Valid()
      modifies this
      ensures Valid()
      ensures active3DShader == if name in ShaderNameDict then name else old(active3DShader)
      ensures lightGrid == old(lightGrid) && loaders == old(loaders) && specularFactor == old(specularFactor)
    {
      var keys := ShaderNameDict.Keys;
      while keys != {}
        invariant keys <= ShaderNameDict.Keys
        invariant name in ShaderNameDict ==> name in keys
        invariant active3DShader == old(active3DShader)
        invariant lightGrid == old(lightGrid) && loaders == old(loaders) && specularFactor == old(specularFactor)
        decreases keys
      {
        ghost var member := NonEmptyHasMember(keys);
        var k :| k in keys;
        if name == k {
          active3DShader := name;
          return;
        }
        keys := keys - {k};
      }
    }

    /** BuildLightGrid: the grid is cleared and every point light is added to its cell. */
    method BuildLightGrid(lights: seq<LightSource>)
      modifies this
      ensures lightGrid == GridOf(lights)
      ensures loaders == old(loaders) && specularFactor == old(specularFactor) && active3DShader == old(active3DShader)
    {
      lightGrid := map[];
      if |lights| > 0 {
        var i := 0;
        while i < |lights|
          invariant 0 <= i <= |lights| && lightGrid == GridOf(lights[..i])
          invariant loaders == old(loaders) && specularFactor == old(specularFactor) && active3DShader == old(active3DShader)
        {
          var cell := WorldToCell(lights[i].pos);
          assert lights[..i + 1][..i] == lights[..i];
          lightGrid := PushLight(lightGrid, cell, lights[i].owner);
          i := i + 1;
        }
        assert lights[..i] == lights;
      }
    }

    /** QueryNearbyLights: the lists of the 3 x 3 cells around the position's cell, concatenated with
        dx outermost, then dz, then list order. */
    method QueryNearbyLights(pos: Vec3) returns (result: seq<int>)
      ensures result == Block(lightGrid, WorldToCell(pos), 3)
      ensures forall o :: o in result <==> exists d :: d in lightGrid && Near(WorldToCell(pos), d) && o in lightGrid[d]
    {
      var c := WorldToCell(pos);
      result := [];
      var dx := -1;
      while dx <= 1
        invariant -1 <= dx <= 2 && result == Block(lightGrid, c, dx + 1)
      {
        var column := QueryColumn(lightGrid, c, dx);
        result := result + column;
        dx := dx + 1;
      }
      forall o ensures o in result <==> exists d :: d in lightGrid && Near(c, d) && o in lightGrid[d] {
        NearbyMembers(lightGrid, c, o);
      }
    }

    /** The lighting environment of the current state. */
    ghost function Env(scene: Scene): LightEnv
      reads this
      requires LoadersPlaced(scene)
    {
      LightEnv(lightGrid, PositionsOf(loaders, scene.positionOf), scene.lightAt)
    }

    /** Every loader has a global position in the scene. */
    ghost predicate LoadersPlaced(scene: Scene)
      reads this
    {
      forall i :: 0 <= i < |loaders| ==> loaders[i] in scene.positionOf
    }

    /** The lighting half of PrepareDraw: the level of detail, and for LOD 1 the lights bound. */
    method PrepareLighting(scene: Scene, pos: Vec3) returns (lighting: Lighting)
      requires LoadersPlaced(scene)
      ensures lighting == LightingFor(Env(scene), pos)
    {
      var lodDist := NearestLoader(PositionsOf(loaders, scene.positionOf), pos);
      if lodDist < DIST_THRESHOLD_SQ {
        var results := QueryNearbyLights(pos);
        var list := CollectEntries(results, scene.lightAt, pos);
        list := SortBy(list, ByDistance);
        if |list| > MAX_LIGHTS {
          list := list[..MAX_LIGHTS];
        }
        lighting := Lit(list);
      } else {
        lighting := Ambient;
      }
    }

    /** The Mesh3D pass: opaque meshes are drawn through PrepareDraw, transparent ones set aside. */
    method OpaquePass(scene: Scene) returns (calls: seq<DrawCall>, transparent: seq<Mesh3DInfo>)
      requires LoadersPlaced(scene)
      ensures calls == OpaqueCalls(scene.meshes3D, Env(scene))
      ensures transparent == TransparentOf(scene.meshes3D)
    {
      var ms := scene.meshes3D;
      calls, transparent := [], [];
      var i := 0;
      while i < |ms|
        invariant 0 <= i <= |ms|
        invariant calls == OpaqueCalls(ms[..i], Env(scene)) && transparent == TransparentOf(ms[..i])
      {
        assert ms[..i + 1][..i] == ms[..i];
        var m := ms[i];
        if m.opacity.Some? && m.opacity.value != 1.0 {
          transparent := transparent + [m];
        } else {
          var lighting := PrepareLighting(scene, m.pos);
          calls := calls + [Draw3D(Opaque, m.id, Some(lighting))];
        }
        i := i + 1;
      }
      assert ms[..i] == ms;
    }

    /** The glassy pass over the transparent meshes. */
    method GlassyPass(scene: Scene, ms: seq<Mesh3DInfo>) returns (calls: seq<DrawCall>)
      requires LoadersPlaced(scene)
      ensures calls == GlassyCalls(ms, Env(scene))
    {
      calls := [];
      var i := 0;
      while i < |ms|
        invariant 0 <= i <= |ms| && calls == GlassyCalls(ms[..i], Env(scene))
      {
        assert ms[..i + 1][..i] == ms[..i];
        var lighting := PrepareLighting(scene, ms[i].pos);
        calls := calls + [Draw3D(Glassy, ms[i].id, Some(lighting))];
        i := i + 1;
      }
      assert ms[..i] == ms;
    }

    /** Draw: the light grid is built when it is empty, then the passes run in order. */
    method Draw(scene: Scene) returns (calls: seq<DrawCall>)
      requires Valid() && LoadersPlaced(scene)
      modifies this
      ensures Valid() && LoadersPlaced(scene)
      ensures lightGrid == if old(lightGrid) == map[] then GridOf(scene.lights) else old(lightGrid)
      ensures loaders == old(loaders) && specularFactor == old(specularFactor) && active3DShader == old(active3DShader)
      ensures calls == FrameCalls(scene, ShaderNameDict[active3DShader], Env(scene))
    {
      if lightGrid == map[] {
        BuildLightGrid(scene.lights);
      }
      var flat := FlatPass(scene.meshes2D, false);
      var lines := FlatPass(scene.lines, true);
      var solid, transparent := OpaquePass(scene);
      var glass := TransparentPasses(scene, transparent);
      var sprites, ui := SpritePass(scene.sprites);
      var overlay := OverlayPass(ui);
      calls := (if scene.meshes2D == [] then [] else [UseShader("Default Shader")] + flat) + lines
        + [UseShader(ShaderNameDict[active3DShader])] + solid + glass
        + (if scene.sprites == [] then [] else [UseShader("Sprite Shader")] + sprites) + overlay;
    }

    /** The depth and glassy passes, skipped when no mesh was set aside. */
    method TransparentPasses(scene: Scene, t: seq<Mesh3DInfo>) returns (calls: seq<DrawCall>)
      requires LoadersPlaced(scene)
      ensures calls == TransparentPart(t, Env(scene))
    {
      calls := [];
      if t != [] {
        var back := DepthPass(t, BackDepth);
        var front := DepthPass(t, FrontDepth);
        var glassy := GlassyPass(scene, t);
        calls := [UseShader(ShaderNameDict["Depth"])] + back + front + [UseShader(ShaderNameDict["Glassy"])] + glassy;
      }
    }
  }

  /** The inner loop of QueryNearbyLights: the lists of the cells (c.0 + dx, c.1 + dz) for dz from
      -1 to 1, in that order. */
  method QueryColumn(g: LightGrid, c: Cell, dx: int) returns (result: seq<int>)
    ensures result == Column(g, c, dx, 3)
  {
    result := [];
    var dz := -1;
    while dz <= 1
      invariant -1 <= dz <= 2 && result == Column(g, c, dx, dz + 1)
    {
      var nc := (c.0 + dx, c.1 + dz);
      if nc in g {
        result := result + g[nc];
      }
      dz := dz + 1;
    }
  }

  /** The Mesh2D pass (line false) or the Line pass. */
  method FlatPass(ids: seq<int>, line: bool) returns (calls: seq<DrawCall>)
    ensures calls == FlatCalls(ids, line)
    ensures |calls| == |ids|
  {
    calls := [];
    var i := 0;
    while i < |ids|
      invariant 0 <= i <= |ids| && calls == FlatCalls(ids[..i], line) && |calls| == i
    {
      assert ids[..i + 1][..i] == ids[..i];
      calls := calls + [if line then DrawLine(ids[i]) else DrawMesh2D(ids[i])];
      i := i + 1;
    }
    assert ids[..i] == ids;
  }

  /** One depth pass over the transparent meshes. */
  method DepthPass(ms: seq<Mesh3DInfo>, pass: Pass3D) returns (calls: seq<DrawCall>)
    ensures calls == DepthCalls(ms, pass)
    ensures |calls| == |ms|
  {
    calls := [];
    var i := 0;
    while i < |ms|
      invariant 0 <= i <= |ms| && calls == DepthCalls(ms[..i], pass) && |calls| == i
    {
      assert ms[..i + 1][..i] == ms[..i];
      calls := calls + [Draw3D(pass, ms[i].id, None)];
      i := i + 1;
    }
    assert ms[..i] == ms;
  }

  /** The SpriteMesh pass: world sprites are drawn, UI sprites set aside, others skipped. */
  method SpritePass(ss: seq<SpriteInfo>) returns (calls: seq<DrawCall>, ui: seq<SpriteInfo>)
    ensures calls == SpriteCalls(ss) && ui == UISpritesOf(ss)
    ensures forall s :: s in ui <==> s in ss && IsUISprite(s)
  {
    calls, ui := [], [];
    var i := 0;
    while i < |ss|
      invariant 0 <= i <= |ss| && calls == SpriteCalls(ss[..i]) && ui == UISpritesOf(ss[..i])
    {
      assert ss[..i + 1][..i] == ss[..i];
      var s := ss[i];
      if s.layer.Some? {
        if s.layer.value == "UI" {
          ui := ui + [s];
        } else {
          calls := calls + [DrawSprite(s.id)];
        }
      }
      i := i + 1;
    }
    assert ss[..i] == ss;
    forall s ensures s in ui <==> s in ss && IsUISprite(s) {
      UISpritesOfMembers(ss, s);
    }
  }

  /** The UI overlay: returns at once when no sprite is on the UI layer, otherwise sorts them by z
      and draws them after applying the UI shader. */
  method OverlayPass(ui: seq<SpriteInfo>) returns (calls: seq<DrawCall>)
    ensures calls == OverlayPart(ui)
  {
    if ui == [] {
      return [];
    }
    var ss := SortBy(ui, ByDepth);
    var drawn := OverlayDraws(ss);
    calls := [UseShader("UI Shader")] + drawn;
  }

  /** The overlay's draw loop: one call per sprite, in the given order. */
  method OverlayDraws(ss: seq<SpriteInfo>) returns (calls: seq<DrawCall>)
    ensures calls == OverlayCalls(ss)
    ensures |calls| == |ss|
  {
    calls := [];
    var i := 0;
    while i < |ss|
      invariant 0 <= i <= |ss| && calls == OverlayCalls(ss[..i]) && |calls| == i
    {
      assert ss[..i + 1][..i] == ss[..i];
      calls := calls + [DrawOverlay(ss[i].id)];
      i := i + 1;
    }
    assert ss[..i] == ss;
  }
}
