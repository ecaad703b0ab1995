/** Mesh data for 3D meshes: the vertex attributes a PrimitiveMesh3D carries, the defaults that
    replace an absent attribute, and the constant cube and skybox tables. */
module Meshes {
  import opened Wrappers
  import opened Vectors

  /** The defaults of InitNormals, InitUVs, InitTans and InitBitans. */
  const DEFAULT_NORMAL: Vec3 := Vec3(0.0, 0.0, -1.0)
  const DEFAULT_UV: Vec2 := Vec2(0.0, 0.0)
  const DEFAULT_TANGENT: Vec3 := Vec3(1.0, 0.0, 0.0)
  const DEFAULT_BITANGENT: Vec3 := Vec3(0.0, 0.0, 1.0)

  /** An attribute array: the given one as it is, or vCount copies of the default when none is
      given (none at all for a negative count, where the fill loop does not run). */
  function Filled<T>(given: Option<seq<T>>, vCount: int, default: T): (r: seq<T>)
    ensures given.Some? ==> r == given.value
    ensures given.None? ==> |r| == (if vCount > 0 then vCount else 0)
    ensures given.None? ==> forall k :: 0 <= k < |r| ==> r[k] == default
  {
    match given
    case Some(s) => s
    case None => seq(if vCount > 0 then vCount else 0, _ => default)
  }

  function InitNormals(normals: Option<seq<Vec3>>, vCount: int): seq<Vec3>
  {
    Filled(normals, vCount, DEFAULT_NORMAL)
  }

  function InitUVs(uvs: Option<seq<Vec2>>, vCount: int): seq<Vec2>
  {
    Filled(uvs, vCount, DEFAULT_UV)
  }

  function InitTans(tans: Option<seq<Vec3>>, vCount: int): seq<Vec3>
  {
    Filled(tans, vCount, DEFAULT_TANGENT)
  }

  function InitBitans(bitans: Option<seq<Vec3>>, vCount: int): seq<Vec3>
  {
    Filled(bitans, vCount, DEFAULT_BITANGENT)
  }

  /** A PrimitiveMesh3D: the vertex attributes, the index list kept by the PrimitiveMesh base, and
      the vertex count. */
  datatype PrimitiveMesh3D = PrimitiveMesh3D(
    vertices: seq<Vec3>, indices: seq<nat>, normals: seq<Vec3>, uvs: seq<Vec2>,
    tangents: seq<Vec3>, bitangents: seq<Vec3>, nVerts: nat)

  /** The constructor: absent attributes are filled in per vertex. */
  function NewPrimitiveMesh3D(
    vertices: seq<Vec3>, indices: seq<nat>, normals: Option<seq<Vec3>> := None,
    uvs: Option<seq<Vec2>> := None, tangents: Option<seq<Vec3>> := None,
    bitangents: Option<seq<Vec3>> := None): (m: PrimitiveMesh3D)
  {
    PrimitiveMesh3D(vertices, indices, InitNormals(normals, |vertices|), InitUVs(uvs, |vertices|),
                    InitTans(tangents, |vertices|), InitBitans(bitangents, |vertices|), |vertices|)
  }

  /** Every attribute array has one entry per vertex. */
  ghost predicate Aligned(m: PrimitiveMesh3D)
  {
    |m.vertices| == m.nVerts && |m.normals| == m.nVerts && |m.uvs| == m.nVerts
    && |m.tangents| == m.nVerts && |m.bitangents| == m.nVerts
  }

  /** Every index names a vertex of the mesh. */
  ghost predicate IndicesInRange(m: PrimitiveMesh3D)
  {
    forall k :: 0 <= k < |m.indices| ==> m.indices[k] < m.nVerts
  }

  /** The getters copy the stored arrays element by element. */
  function GetVertices(m: PrimitiveMesh3D): seq<Vec3>
  {
    seq(|m.vertices|, k requires 0 <= k < |m.vertices| => m.vertices[k])
  }

  function GetNormals(m: PrimitiveMesh3D): seq<Vec3>
  {
    seq(|m.normals|, k requires 0 <= k < |m.normals| => m.normals[k])
  }

  function GetUVs(m: PrimitiveMesh3D): seq<Vec2>
  {
    seq(|m.uvs|, k requires 0 <= k < |m.uvs| => m.uvs[k])
  }

  function GetTangents(m: PrimitiveMesh3D): seq<Vec3>
  {
    seq(|m.tangents|, k requires 0 <= k < |m.tangents| => m.tangents[k])
  }

  function GetBitangents(m: PrimitiveMesh3D): seq<Vec3>
  {
    seq(|m.bitangents|, k requires 0 <= k < |m.bitangents| => m.bitangents[k])
  }

  /** nVerts is the vertex count, and an attribute that is given must have one entry per vertex for
      the mesh to be aligned; defaulted attributes always are. */
  lemma ConstructedAligned(
    vertices: seq<Vec3>, indices: seq<nat>, normals: Option<seq<Vec3>>, uvs: Option<seq<Vec2>>,
    tangents: Option<seq<Vec3>>, bitangents: Option<seq<Vec3>>)
    ensures var m := NewPrimitiveMesh3D(vertices, indices, normals, uvs, tangents, bitangents);
      && m.nVerts == |vertices|
      && (Aligned(m) <==>
            (normals.Some? ==> |normals.value| == |vertices|) && (uvs.Some? ==> |uvs.value| == |vertices|)
            && (tangents.Some? ==> |tangents.value| == |vertices|)
            && (bitangents.Some? ==> |bitangents.value| == |vertices|))
  {
  }

  /** Construction followed by a getter is a round trip: every given array comes back element for
      element, and an absent one comes back as one default per vertex. */
  lemma GettersRoundTrip(
    vertices: seq<Vec3>, indices: seq<nat>, normals: Option<seq<Vec3>>, uvs: Option<seq<Vec2>>,
    tangents: Option<seq<Vec3>>, bitangents: Option<seq<Vec3>>)
    ensures var m := NewPrimitiveMesh3D(vertices, indices, normals, uvs, tangents, bitangents);
      && GetVertices(m) == vertices
      && GetNormals(m) == (if normals.Some? then normals.value else seq(|vertices|, _ => DEFAULT_NORMAL))
      && GetUVs(m) == (if uvs.Some? then uvs.value else seq(|vertices|, _ => DEFAULT_UV))
      && GetTangents(m) == (if tangents.Some? then tangents.value else seq(|vertices|, _ => DEFAULT_TANGENT))
      && GetBitangents(m) == (if bitangents.Some? then bitangents.value else seq(|vertices|, _ => DEFAULT_BITANGENT))
  {
    var m := NewPrimitiveMesh3D(vertices, indices, normals, uvs, tangents, bitangents);
    CopyIsIdentity(m.vertices);
    CopyIsIdentity(m.normals);
    CopyIsIdentity(m.uvs);
    CopyIsIdentity(m.tangents);
    CopyIsIdentity(m.bitangents);
  }

  lemma CopyIsIdentity<T>(s: seq<T>)
    ensures seq(|s|, k requires 0 <= k < |s| => s[k]) == s
  {
  }

  // The unit cube: four vertices per face, in the order front, left, bottom, right, back, top.

  const CUBE_VERTICES: seq<Vec3> := [
    Vec3(-0.5, -0.5, 0.5), Vec3(-0.5, 0.5, 0.5), Vec3(0.5, 0.5, 0.5), Vec3(0.5, -0.5, 0.5),
    Vec3(-0.5, 0.5, 0.5), Vec3(-0.5, -0.5, 0.5), Vec3(-0.5, -0.5, -0.5), Vec3(-0.5, 0.5, -0.5),
    Vec3(-0.5, -0.5, 0.5), Vec3(0.5, -0.5, 0.5), Vec3(0.5, -0.5, -0.5), Vec3(-0.5, -0.5, -0.5),
    Vec3(0.5, -0.5, 0.5), Vec3(0.5, 0.5, 0.5), Vec3(0.5, 0.5, -0.5), Vec3(0.5, -0.5, -0.5),
    Vec3(-0.5, -0.5, -0.5), Vec3(0.5, -0.5, -0.5), Vec3(0.5, 0.5, -0.5), Vec3(-0.5, 0.5, -0.5),
    Vec3(-0.5, 0.5, -0.5), Vec3(0.5, 0.5, -0.5), Vec3(0.5, 0.5, 0.5), Vec3(-0.5, 0.5, 0.5)]

  const CUBE_INDICES: seq<nat> := [
    2, 1, 0, 3, 2, 0, 14, 13, 12, 14, 12, 15, 19, 18, 17, 19, 17, 16,
    7, 6, 4, 4, 6, 5, 8, 9, 11, 9, 11, 10, 23, 22, 20, 22, 21, 20]

  const FORWARD: Vec3 := Vec3(0.0, 0.0, 1.0)
  const RIGHT: Vec3 := Vec3(1.0, 0.0, 0.0)
  const UP: Vec3 := Vec3(0.0, 1.0, 0.0)

  function Neg(v: Vec3): Vec3 { Vec3(-v.x, -v.y, -v.z) }

  const CUBE_NORMALS: seq<Vec3> := [
    FORWARD, FORWARD, FORWARD, FORWARD, Neg(RIGHT), Neg(RIGHT), Neg(RIGHT), Neg(RIGHT),
    Neg(UP), Neg(UP), Neg(UP), Neg(UP), RIGHT, RIGHT, RIGHT, RIGHT,
    Neg(FORWARD), Neg(FORWARD), Neg(FORWARD), Neg(FORWARD), UP, UP, UP, UP]

  const CUBE_UVS: seq<Vec2> := [
    Vec2(0.0, 0.0), Vec2(0.0, 1.0), Vec2(1.0, 1.0), Vec2(1.0, 0.0),
    Vec2(1.0, 1.0), Vec2(1.0, 0.0), Vec2(0.0, 0.0), Vec2(0.0, 1.0),
    Vec2(1.0, 0.0), Vec2(0.0, 0.0), Vec2(0.0, 1.0), Vec2(1.0, 1.0),
    Vec2(0.0, 0.0), Vec2(0.0, 1.0), Vec2(1.0, 1.0), Vec2(1.0, 0.0),
    Vec2(1.0, 0.0), Vec2(0.0, 0.0), Vec2(0.0, 1.0), Vec2(1.0, 1.0),
    Vec2(0.0, 1.0), Vec2(1.0, 1.0), Vec2(1.0, 0.0), Vec2(0.0, 0.0)]

  function Cube(): PrimitiveMesh3D
  {
    NewPrimitiveMesh3D(CUBE_VERTICES, CUBE_INDICES, Some(CUBE_NORMALS), Some(CUBE_UVS))
  }

  /** The cube has 24 vertices, normals and UVs and 36 indices, all naming one of its vertices. */
  lemma CubeTables()
    ensures |CUBE_VERTICES| == 24 && |CUBE_NORMALS| == 24 && |CUBE_UVS| == 24 && |CUBE_INDICES| == 36
    ensures Aligned(Cube()) && IndicesInRange(Cube())
  {
  }

  /** The three corners of each of the cube's 12 triangles lie on one face. */
  lemma CubeTrianglesOnFaces(t: int)
    requires 0 <= t < 12
    ensures CUBE_INDICES[3 * t] / 4 == CUBE_INDICES[3 * t + 1] / 4 == CUBE_INDICES[3 * t + 2] / 4
  {
  }

  /** All four vertices of a face carry the same normal. */
  lemma CubeNormalsPerFace(k: int)
    requires 0 <= k < 24
    ensures CUBE_NORMALS[k] == CUBE_NORMALS[4 * (k / 4)]
  {
  }

  // The skybox: the eight corners of the cube of side 2 and clockwise triangles, with no normals
  // or UVs.

  const SKYBOX_VERTICES: seq<Vec3> := [
    Vec3(-1.0, -1.0, 1.0), Vec3(1.0, -1.0, 1.0), Vec3(1.0, -1.0, -1.0), Vec3(-1.0, -1.0, -1.0),
    Vec3(-1.0, 1.0, 1.0), Vec3(1.0, 1.0, 1.0), Vec3(1.0, 1.0, -1.0), Vec3(-1.0, 1.0, -1.0)]

  const SKYBOX_INDICES: seq<nat> := [
    1, 2, 6, 6, 5, 1, 0, 4, 7, 7, 3, 0, 4, 5, 6, 6, 7, 4,
    0, 3, 2, 2, 1, 0, 0, 1, 5, 5, 4, 0, 3, 7, 6, 6, 2, 3]

  function Skybox(): PrimitiveMesh3D
  {
    NewPrimitiveMesh3D(SKYBOX_VERTICES, SKYBOX_INDICES)
  }

  /** The skybox has 8 vertices and 36 indices, a whole number of triangles each naming one of the
      eight corners, and its absent attributes are the per-vertex defaults. */
  lemma SkyboxTables()
    ensures |SKYBOX_VERTICES| == 8 && |SKYBOX_INDICES| == 36 && |SKYBOX_INDICES| % 3 == 0
    ensures Aligned(Skybox()) && IndicesInRange(Skybox())
    ensures forall k :: 0 <= k < 8 ==> Skybox().normals[k] == DEFAULT_NORMAL && Skybox().uvs[k] == DEFAULT_UV
  {
  }
}
