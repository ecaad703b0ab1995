/** The resource manager: four registries, by name, of the textures, cubemaps, materials and shaders
    the engine has created, and the import of 3D assets into entities. A registry is a map from names
    to possibly-null entries, and its lookup inserts a null entry for a name it does not hold, as
    std::map's operator[] does. Decoding images and compiling shader stages happen outside the model:
    their results are parameters (a decoded Image or none, a compiled stage or its log), and OpenGL's
    texture names are handed out by a counter. */
module Resources {
  import opened Wrappers
  import opened Vectors
  import opened Shading
  import opened Materials
  import opened Textures
  import opened Meshes

  /** An image as stb_image decodes it: its size, the channel count of the file and the pixels. */
  datatype Image = Image(width: nat, height: nat, channels: nat, data: seq<bv8>)

  /** The outcome of compiling one shader stage: the stage's handle, or the compiler's log. */
  datatype StageResult = Compiled(handle: int) | CompileError(log: string)

  /** The pixels of the two 1 by 1 placeholder textures: opaque white, and the flat normal (0, 0, 1). */
  const WHITE_PIXEL: seq<bv8> := [255, 255, 255, 255]
  const FLAT_NORMAL_PIXEL: seq<bv8> := [0, 0, 255, 255]

  /** operator[]: a registry after looking a name up, with a null entry added for an absent name. */
  function Subscripted<V>(m: map<string, V>, key: string, none: V): map<string, V>
  {
    if key in m then m else m[key := none]
  }

  /** A texture as loadTextureFromFile leaves it: a file that did not decode gives the texture the
      default constructor made (0 by 0, RGB, no image); a decoded one gives its size, RGBA exactly
      for a four-channel file, and its pixels. */
  ghost predicate LoadedAs(t: Texture2D, load: Option<Image>)
    reads t
  {
    match load
    case None => t.width == 0 && t.height == 0 && t.internalFormat == RGB && t.imageFormat == RGB && t.image == None
    case Some(img) =>
      && t.width == img.width && t.height == img.height && t.image == Some(img.data)
      && t.internalFormat == (if img.channels == 4 then RGBA else RGB) && t.imageFormat == t.internalFormat
  }

  /** A 1 by 1 RGBA placeholder holding the given pixel. */
  ghost predicate Placeholder(t: Texture2D, pixel: seq<bv8>)
    reads t
  {
    t.width == 1 && t.height == 1 && t.internalFormat == RGBA && t.imageFormat == RGBA && t.image == Some(pixel)
  }

  /** The message loadAndCompileShader raises for a stage that does not compile. */
  function CompileFailure(stage: string, log: string): string
  {
    stage + " shader compilation failed.\n" + log
  }

  /** The images of a cubemap's files that decoded, in order: the faces it receives. */
  function Loaded(loads: seq<Option<Image>>): seq<Image>
  {
    if loads == [] then []
    else Loaded(loads[..|loads| - 1]) + (match loads[|loads| - 1] case None => [] case Some(img) => [img])
  }

  function Widths(imgs: seq<Image>): seq<nat>
  {
    seq(|imgs|, j requires 0 <= j < |imgs| => imgs[j].width)
  }

  function Heights(imgs: seq<Image>): seq<nat>
  {
    seq(|imgs|, j requires 0 <= j < |imgs| => imgs[j].height)
  }

  /** The faces uploaded from a sequence of images: the k-th image goes to the k-th face target. */
  function FacesOf(imgs: seq<Image>): map<int, seq<bv8>>
  {
    if imgs == [] then map[]
    else FacesOf(imgs[..|imgs| - 1])[FaceTarget(|imgs| - 1) := imgs[|imgs| - 1].data]
  }

  predicate AnyFourChannel(imgs: seq<Image>)
  {
    exists j :: 0 <= j < |imgs| && imgs[j].channels == 4
  }

  /** The face index advances only on a decoded file: the k-th decoded image, and no other, lands on
      face target k, and exactly the first |Loaded| targets are written. */
  lemma {:induction false} FacesOfLookup(imgs: seq<Image>, k: nat)
    ensures FaceTarget(k) in FacesOf(imgs) <==> k < |imgs|
    ensures k < |imgs| ==> FacesOf(imgs)[FaceTarget(k)] == imgs[k].data
    ensures forall t :: t in FacesOf(imgs) ==> exists j :: 0 <= j < |imgs| && t == FaceTarget(j)
    decreases |imgs|
  {
    if imgs != [] {
      var init := imgs[..|imgs| - 1];
      FacesOfLookup(init, k);
      forall t | t in FacesOf(imgs) ensures exists j :: 0 <= j < |imgs| && t == FaceTarget(j) {
        if t != FaceTarget(|imgs| - 1) {
          var j :| 0 <= j < |init| && t == FaceTarget(j);
          assert t == FaceTarget(j);
        }
      }
    }
  }

  /** Files that fail to decode are skipped: they add no image, and every other file adds its own. */
  lemma {:induction false} LoadedSkipsFailures(loads: seq<Option<Image>>, img: Image)
    ensures Loaded(loads + [None]) == Loaded(loads)
    ensures Loaded(loads + [Some(img)]) == Loaded(loads) + [img]
    ensures |Loaded(loads)| <= |loads|
    ensures (forall k :: 0 <= k < |loads| ==> loads[k].None?) ==> Loaded(loads) == []
    decreases |loads|
  {
    assert (loads + [None])[..|loads|] == loads;
    assert (loads + [Some(img)])[..|loads|] == loads;
    if loads != [] {
      var init := loads[..|loads| - 1];
      LoadedSkipsFailures(init, img);
      if forall k :: 0 <= k < |loads| ==> loads[k].None? {
        assert forall k :: 0 <= k < |init| ==> init[k] == loads[k];
      }
    }
  }

  /** One more decoded image extends the two dimension folds by its size. */
  lemma NextImageDims(done: seq<Image>, img: Image)
    ensures FoldDims(-1, Widths(done + [img])) ==
      match FoldDims(-1, Widths(done)) case None => None case Some(w) => NextDim(w, img.width)
    ensures FoldDims(-1, Heights(done + [img])) ==
      match FoldDims(-1, Heights(done)) case None => None case Some(h) => NextDim(h, img.height)
  {
    var all := done + [img];
    var ws, hs := Widths(all), Heights(all);
    assert ws[..|ws| - 1] == Widths(done);
    assert hs[..|hs| - 1] == Heights(done);
  }

  /** One more decoded image becomes the next face, and switches the format to RGBA when it has four
      channels. */
  lemma NextImageFace(done: seq<Image>, img: Image)
    ensures FacesOf(done + [img]) == FacesOf(done)[FaceTarget(|done|) := img.data]
    ensures AnyFourChannel(done + [img]) <==> AnyFourChannel(done) || img.channels == 4
  {
    var all := done + [img];
    assert all[..|all| - 1] == done;
    if AnyFourChannel(done) {
      var j :| 0 <= j < |done| && done[j].channels == 4;
      assert all[j] == done[j];
    }
    if AnyFourChannel(all) && img.channels != 4 {
      var j :| 0 <= j < |all| && all[j].channels == 4;
      assert done[j] == all[j];
    }
  }

  /** A failed dimension fold stays failed however many sizes follow. */
  lemma {:induction false} FoldDimsStaysNone(sizes: seq<nat>, n: nat)
    requires n <= |sizes| && FoldDims(-1, sizes[..n]).None?
    ensures FoldDims(-1, sizes).None?
    decreases |sizes| - n
  {
    if n < |sizes| {
      assert sizes[..n + 1][..n] == sizes[..n];
      FoldDimsStaysNone(sizes, n + 1);
    } else {
      assert sizes[..n] == sizes;
    }
  }

  /** The images decoded from a prefix of the files are a prefix of those decoded from all. */
  lemma {:induction false} LoadedPrefix(loads: seq<Option<Image>>, n: nat)
    requires n <= |loads|
    ensures |Loaded(loads[..n])| <= |Loaded(loads)|
    ensures Loaded(loads)[..|Loaded(loads[..n])|] == Loaded(loads[..n])
    decreases |loads| - n
  {
    if n < |loads| {
      LoadedPrefix(loads, n + 1);
      var init := loads[..n + 1];
      assert init[..n] == loads[..n];
      assert init[..|init| - 1] == loads[..n];
    } else {
      assert loads[..n] == loads;
    }
  }

  /** A face of other dimensions stops the whole load. */
  lemma FailStaysFailed(loads: seq<Option<Image>>, n: nat)
    requires n <= |loads|
    requires FoldDims(-1, Widths(Loaded(loads[..n]))).None? || FoldDims(-1, Heights(Loaded(loads[..n]))).None?
    ensures FoldDims(-1, Widths(Loaded(loads))).None? || FoldDims(-1, Heights(Loaded(loads))).None?
  {
    LoadedPrefix(loads, n);
    var all, part := Loaded(loads), Loaded(loads[..n]);
    var m := |part|;
    SizesPrefix(all, m);
    if FoldDims(-1, Widths(part)).None? {
      FoldDimsStaysNone(Widths(all), m);
    } else {
      FoldDimsStaysNone(Heights(all), m);
    }
  }

  /** The sizes of a prefix of the images are a prefix of their sizes. */
  lemma SizesPrefix(imgs: seq<Image>, m: nat)
    requires m <= |imgs|
    ensures Widths(imgs)[..m] == Widths(imgs[..m]) && Heights(imgs)[..m] == Heights(imgs[..m])
  {
  }

  /** With images of positive size, a cubemap keeps its dimensions exactly when every decoded face
      has the size of the first. */
  lemma CubemapDimensions(imgs: seq<Image>)
    requires forall k :: 0 <= k < |imgs| ==> imgs[k].width > 0 && imgs[k].height > 0
    requires imgs != []
    ensures FoldDims(-1, Widths(imgs)).Some? <==> forall k :: 0 <= k < |imgs| ==> imgs[k].width == imgs[0].width
    ensures FoldDims(-1, Heights(imgs)).Some? <==> forall k :: 0 <= k < |imgs| ==> imgs[k].height == imgs[0].height
  {
    var ws, hs := Widths(imgs), Heights(imgs);
    assert forall k :: 0 <= k < |imgs| ==> ws[k] == imgs[k].width && hs[k] == imgs[k].height;
    FoldDimsUniform(ws);
    FoldDimsUniform(hs);
  }

  /** A cubemap that received the given decoded images, in order, without a dimension error. */
  ghost predicate Received(c: Cubemap, imgs: seq<Image>)
    reads c
  {
    && c.faces == FacesOf(imgs)
    && FoldDims(-1, Widths(imgs)) == Some(c.width) && FoldDims(-1, Heights(imgs)) == Some(c.height)
    && c.internalFormat == (if AnyFourChannel(imgs) then RGBA else RGB) && c.imageFormat == c.internalFormat
  }

  /** One turn of loadCubemapFromFiles' loop for a file that decoded: the format switch for a
      four-channel image, then the face upload at the next index. */
  method ReceiveFace(c: Cubemap, i: nat, ghost done: seq<Image>, img: Image) returns (o: Outcome)
    requires i == |done| && Received(c, done)
    modifies c
    ensures o.Pass? ==> Received(c, done + [img])
    ensures o.Fail? ==> FoldDims(-1, Widths(done + [img])).None? || FoldDims(-1, Heights(done + [img])).None?
    ensures c.paramsSet == old(c.paramsSet)
  {
    NextImageDims(done, img);
    NextImageFace(done, img);
    if img.channels == 4 {
      c.internalFormat := RGBA;
      c.imageFormat := RGBA;
    }
    o := c.Generate(i, img.width, img.height, img.data);
  }

  /** The decoded images of one more file. */
  lemma LoadedStep(loads: seq<Option<Image>>, k: nat)
    requires k < |loads|
    ensures loads[k].None? ==> Loaded(loads[..k + 1]) == Loaded(loads[..k])
    ensures loads[k].Some? ==> Loaded(loads[..k + 1]) == Loaded(loads[..k]) + [loads[k].value]
  {
    assert loads[..k + 1][..k] == loads[..k];
    assert Loaded(loads[..k]) + [] == Loaded(loads[..k]);
  }

  /** loadCubemapFromFiles' loop: every file that decoded becomes the next face, and a dimension
      error stops the loop. */
  method ReceiveAll(c: Cubemap, loads: seq<Option<Image>>) returns (o: Outcome)
    requires Received(c, [])
    modifies c
    ensures o.Pass? <==> FoldDims(-1, Widths(Loaded(loads))).Some? && FoldDims(-1, Heights(Loaded(loads))).Some?
    ensures o.Pass? ==> Received(c, Loaded(loads))
    ensures c.paramsSet == old(c.paramsSet)
  {
    var i: nat := 0;
    var k := 0;
    assert loads[..0] == [];
    while k < |loads|
      invariant 0 <= k <= |loads| && c.paramsSet == old(c.paramsSet)
      invariant i == |Loaded(loads[..k])| && Received(c, Loaded(loads[..k]))
    {
      o, i := ReceiveFile(c, loads, k, i);
      if o.Fail? {
        return;
      }
      k := k + 1;
    }
    assert loads[..k] == loads;
    o := Pass;
  }

  /** One turn of loadCubemapFromFiles' loop: a file that did not decode is skipped, one that did is
      received as the next face, and a dimension error fails the whole load. */
  method ReceiveFile(c: Cubemap, loads: seq<Option<Image>>, k: nat, i: nat) returns (o: Outcome, next: nat)
    requires k < |loads| && i == |Loaded(loads[..k])| && Received(c, Loaded(loads[..k]))
    modifies c
    ensures o.Pass? ==> next == |Loaded(loads[..k + 1])| && Received(c, Loaded(loads[..k + 1]))
    ensures o.Fail? ==> FoldDims(-1, Widths(Loaded(loads))).None? || FoldDims(-1, Heights(Loaded(loads))).None?
    ensures c.paramsSet == old(c.paramsSet)
  {
    ghost var done := Loaded(loads[..k]);
    LoadedStep(loads, k);
    o, next := Pass, i;
    if loads[k].Some? {
      o := ReceiveFace(c, i, done, loads[k].value);
      if o.Fail? {
        FailStaysFailed(loads, k + 1);
        return;
      }
      next := i + 1;
    }
  }

  /** A material as assimp presents it: its name, the diffuse and emissive colours (black when the
      key is missing), the opacity read, the two sources of roughness and metalness (the raw
      property, then the glTF factor) and the path of its first diffuse texture. */
  datatype ImportedMaterial = ImportedMaterial(
    name: string, diffuse: Option<Color>, emissive: Option<Color>, opacity: real,
    rawRoughness: Option<real>, roughnessFactor: Option<real>,
    rawMetalness: Option<real>, metallicFactor: Option<real>,
    diffusePath: string)

  /** aiColor4D starts out black and transparent; a missing colour key leaves it so. */
  function ColorOrBlack(c: Option<Color>): Color
  {
    match c case None => Color(0.0, 0.0, 0.0, 0.0) case Some(v) => v
  }

  function Abs(v: real): real
  {
    if v < 0.0 then -v else v
  }

  /** aiColor4D::IsBlack: red, green and blue all within 10e-3 of zero; alpha does not matter. */
  predicate IsBlack(c: Color)
  {
    Abs(c.r) < 0.01 && Abs(c.g) < 0.01 && Abs(c.b) < 0.01
  }

  /** The first property that is present, else the default the variable was initialised with. */
  function FirstPresent(first: Option<real>, second: Option<real>, default: real): real
  {
    match first
    case Some(v) => v
    case None => match second case Some(v) => v case None => default
  }

  function Rgb(c: Color): Vec3
  {
    Vec3(c.r, c.g, c.b)
  }

  /** The fields of a material created by LoadMaterial: the material's name, every colour and factor
      passed through its clamping setter, roughness defaulting to 0.5 and metalness to 0, tiling as
      constructed, and intensity 1 when the emissive colour is not black. */
  function ImportedData(m: ImportedMaterial): MaterialData
  {
    MaterialData(
      m.name, ClampVec01(Rgb(ColorOrBlack(m.diffuse))), ClampVec01(Rgb(ColorOrBlack(m.emissive))),
      Clamp01(m.opacity), Clamp01(FirstPresent(m.rawMetalness, m.metallicFactor, 0.0)),
      Clamp01(FirstPresent(m.rawRoughness, m.roughnessFactor, 0.5)),
      1.0, if IsBlack(ColorOrBlack(m.emissive)) then 0.0 else 1.0)
  }

  /** Whatever assimp hands over, an imported material has its colours in the unit cube, its factors
      and its shininess in [0, 1] and a tiling of 1; it glows exactly when its emissive colour is not
      black, and with no emissive colour at all it has neither glow nor emission. */
  lemma ImportedDataInRange(m: ImportedMaterial)
    ensures var d := ImportedData(m);
      && InUnitCube(d.diffuse) && InUnitCube(d.emission)
      && InUnit(d.opacity) && InUnit(d.metallic) && InUnit(d.roughness) && InUnit(Shininess(d.metallic, d.roughness))
      && d.tiling == 1.0 && (d.intensity == 1.0 <==> !IsBlack(ColorOrBlack(m.emissive)))
      && (m.emissive.None? ==> d.intensity == 0.0 && d.emission == Zero3)
    ensures m.rawRoughness.None? && m.roughnessFactor.None? ==> ImportedData(m).roughness == 0.5
    ensures m.rawMetalness.None? && m.metallicFactor.None? ==> ImportedData(m).metallic == 0.0
  {
  }

  /** The data a new default material holds: Material("default") with every other argument at its
      default. */
  const DEFAULT_MATERIAL := MaterialData("default", One3, Zero3, 1.0, 0.0, 0.5, 1.0, 0.0)

  /** An embedded texture: the file name assimp records and what decoding its bytes gives. */
  datatype EmbeddedTexture = EmbeddedTexture(fileName: string, decoded: Option<Image>)

  /** A diffuse path naming an embedded texture ("*" followed by its index). */
  predicate Embedded(path: string)
  {
    |path| > 0 && path[0] == '*'
  }

  /** LoadMaterial's setter calls on a newly constructed material. */
  method SetImported(result: Material, imported: ImportedMaterial)
    requires result.Data() == MaterialData(imported.name, One3, Zero3, 1.0, 0.0, 0.5, 1.0, 0.0)
    modifies result
    ensures result.Data() == ImportedData(imported)
  {
    var diffuse := ColorOrBlack(imported.diffuse);
    result.SetDiffuse(Vec3(diffuse.r, diffuse.g, diffuse.b));
    var emissive := ColorOrBlack(imported.emissive);
    result.SetEmission(Vec3(emissive.r, emissive.g, emissive.b));
    if !IsBlack(emissive) {
      result.SetIntensity(1.0);
    }
    result.SetOpacity(imported.opacity);
    var roughness := 0.5;
    if imported.rawRoughness.Some? {
      roughness := imported.rawRoughness.value;
    } else if imported.roughnessFactor.Some? {
      roughness := imported.roughnessFactor.value;
    }
    result.SetRoughness(roughness);
    var metallic := 0.0;
    if imported.rawMetalness.Some? {
      metallic := imported.rawMetalness.value;
    } else if imported.metallicFactor.Some? {
      metallic := imported.metallicFactor.value;
    }
    result.SetMetallic(metallic);
  }

  // ------------------------------------------------------------------ 3D asset import

  /** A mesh as assimp presents it: positions (if it has any), faces as index lists, the per-vertex
      normals, tangents and bitangents, the first UV channel if there is one, and its material. */
  datatype ImportedMesh = ImportedMesh(
    hasPositions: bool, vertices: seq<Vec3>, faces: seq<seq<nat>>, normals: seq<Vec3>,
    texCoords: Option<seq<Vec2>>, tangents: seq<Vec3>, bitangents: seq<Vec3>, materialIndex: nat)

  /** Every face is a triangle. */
  predicate Triangles(faces: seq<seq<nat>>)
  {
    forall k :: 0 <= k < |faces| ==> |faces[k]| == 3
  }

  /** What ImportMesh reads without checking: after triangulation every face has three indices,
      and every per-vertex array (the UVs included, when present) has one entry per vertex. */
  predicate MeshReadable(m: ImportedMesh)
  {
    && Triangles(m.faces)
    && |m.normals| == |m.vertices| && |m.tangents| == |m.vertices| && |m.bitangents| == |m.vertices|
    && (m.texCoords.Some? ==> |m.texCoords.value| == |m.vertices|)
  }

  /** The index list of a triangulated mesh: each face's three indices, face after face. */
  function Flatten(faces: seq<seq<nat>>): seq<nat>
    requires Triangles(faces)
  {
    if faces == [] then []
    else
      var last := faces[|faces| - 1];
      Flatten(faces[..|faces| - 1]) + [last[0], last[1], last[2]]
  }

  /** Exactly three indices per face, in face order: index 3i + j is the j-th corner of face i. */
  lemma {:induction false} FlattenIndices(faces: seq<seq<nat>>, i: nat, j: nat)
    requires Triangles(faces)
    ensures |Flatten(faces)| == 3 * |faces|
    ensures i < |faces| && j < 3 ==> Flatten(faces)[3 * i + j] == faces[i][j]
    decreases |faces|
  {
    if faces != [] {
      var init := faces[..|faces| - 1];
      FlattenIndices(init, i, j);
      if i < |init| && j < 3 {
        assert init[i] == faces[i];
      }
    }
  }

  /** The UVs ImportMesh collects: the first channel, or (0, 0) for every vertex without one. */
  function UVsOf(m: ImportedMesh): seq<Vec2>
  {
    match m.texCoords
    case Some(uvs) => uvs
    case None => seq(|m.vertices|, _ => Vec2(0.0, 0.0))
  }

  predicate SkippedMesh(m: ImportedMesh)
  {
    !m.hasPositions || |m.vertices| == 0
  }

  /** ImportMesh: the vertices, the faces' indices in order, and the normals, UVs, tangents and
      bitangents, handed to the PrimitiveMesh3D constructor. */
  method ImportMesh(mesh: ImportedMesh) returns (p: PrimitiveMesh3D)
    requires MeshReadable(mesh)
    ensures p == NewPrimitiveMesh3D(mesh.vertices, Flatten(mesh.faces), Some(mesh.normals), Some(UVsOf(mesh)),
                                    Some(mesh.tangents), Some(mesh.bitangents))
  {
    var nVerts := |mesh.vertices|;
    var vertices := mesh.vertices;
    var indices: seq<nat> := [];
    var i := 0;
    while i < |mesh.faces|
      invariant 0 <= i <= |mesh.faces| && indices == Flatten(mesh.faces[..i])
    {
      var face := mesh.faces[i];
      assert mesh.faces[..i + 1][..i] == mesh.faces[..i];
      indices := indices + [face[0]];
      indices := indices + [face[1]];
      indices := indices + [face[2]];
      i := i + 1;
    }
    assert mesh.faces[..i] == mesh.faces;
    var normals := mesh.normals;
    var uvs: seq<Vec2> := [];
    if mesh.texCoords.Some? {
      var coords := mesh.texCoords.value;
      i := 0;
      while i < nVerts
        invariant 0 <= i <= nVerts && uvs == coords[..i]
      {
        uvs := uvs + [coords[i]];
        i := i + 1;
      }
      assert coords[..i] == coords;
    } else {
      uvs := seq(nVerts, _ => Vec2(0.0, 0.0));
    }
    var tans: seq<Vec3> := [];
    i := 0;
    while i < nVerts
      invariant 0 <= i <= nVerts && tans == mesh.tangents[..i]
    {
      tans := tans + [mesh.tangents[i]];
      i := i + 1;
    }
    assert mesh.tangents[..i] == mesh.tangents;
    var bitans: seq<Vec3> := [];
    i := 0;
    while i < nVerts
      invariant 0 <= i <= nVerts && bitans == mesh.bitangents[..i]
    {
      bitans := bitans + [mesh.bitangents[i]];
      i := i + 1;
    }
    assert mesh.bitangents[..i] == mesh.bitangents;
    p := NewPrimitiveMesh3D(vertices, indices, Some(normals), Some(uvs), Some(tans), Some(bitans));
  }

  /** An imported mesh has every attribute array aligned with its vertices and three indices per
      face; its indices all name vertices exactly when the faces' do; without a UV channel every
      vertex has UV (0, 0). */
  lemma ImportedMeshShape(mesh: ImportedMesh)
    requires MeshReadable(mesh)
    ensures var p := NewPrimitiveMesh3D(mesh.vertices, Flatten(mesh.faces), Some(mesh.normals), Some(UVsOf(mesh)),
                                        Some(mesh.tangents), Some(mesh.bitangents));
      && Aligned(p) && |p.indices| == 3 * |mesh.faces|
      && (IndicesInRange(p) <==> forall i, j :: 0 <= i < |mesh.faces| && 0 <= j < 3 ==> mesh.faces[i][j] < |mesh.vertices|)
      && (mesh.texCoords.None? ==> forall k :: 0 <= k < |p.uvs| ==> p.uvs[k] == Vec2(0.0, 0.0))
  {
    var p := NewPrimitiveMesh3D(mesh.vertices, Flatten(mesh.faces), Some(mesh.normals), Some(UVsOf(mesh)),
                                Some(mesh.tangents), Some(mesh.bitangents));
    ConstructedAligned(mesh.vertices, Flatten(mesh.faces), Some(mesh.normals), Some(UVsOf(mesh)),
                       Some(mesh.tangents), Some(mesh.bitangents));
    FlattenIndices(mesh.faces, 0, 0);
    if IndicesInRange(p) {
      forall i, j | 0 <= i < |mesh.faces| && 0 <= j < 3 ensures mesh.faces[i][j] < |mesh.vertices| {
        FlattenIndices(mesh.faces, i, j);
      }
    }
    if forall i, j :: 0 <= i < |mesh.faces| && 0 <= j < 3 ==> mesh.faces[i][j] < |mesh.vertices| {
      forall k | 0 <= k < |p.indices| ensures p.indices[k] < p.nVerts {
        FlattenIndices(mesh.faces, k / 3, k % 3);
        assert k == 3 * (k / 3) + k % 3;
      }
    }
  }

  /** A scene node: its name, the indices of its meshes in the scene, its children and its
      transformation, already decomposed into scale, Euler rotation and position. */
  datatype ImportedNode = ImportedNode(
    name: string, meshes: seq<nat>, children: seq<ImportedNode>, scale: Vec3, rotation: Vec3, position: Vec3)

  /** An imported scene: the node tree, the meshes and materials the nodes refer to by index, and
      the embedded textures by their "*n" path. */
  datatype ImportedScene = ImportedScene(
    root: ImportedNode, meshes: seq<ImportedMesh>, materials: seq<ImportedMaterial>,
    embedded: map<string, EmbeddedTexture>)

  /** What ImportNode reads without checking: each mesh it imports is readable and names a
      material of the scene, and each embedded diffuse path names an embedded texture. */
  predicate SceneReadable(scene: ImportedScene)
  {
    && (forall k :: 0 <= k < |scene.meshes| && !SkippedMesh(scene.meshes[k]) ==>
          MeshReadable(scene.meshes[k]) && scene.meshes[k].materialIndex < |scene.materials|)
    && (forall k :: 0 <= k < |scene.materials| && Embedded(scene.materials[k].diffusePath) ==>
          scene.materials[k].diffusePath in scene.embedded)
  }

  /** Every mesh index in the subtree names a mesh of the scene. */
  predicate NodeReadable(n: ImportedNode, meshCount: nat)
    decreases n
  {
    && (forall k :: 0 <= k < |n.meshes| ==> n.meshes[k] < meshCount)
    && (forall k :: 0 <= k < |n.children| ==> NodeReadable(n.children[k], meshCount))
  }

  /** A node with neither meshes nor children: ImportNode skips it. */
  predicate EmptyLeaf(n: ImportedNode)
  {
    |n.meshes| == 0 && |n.children| == 0
  }

  /** The number of entities ImportNode creates for a subtree. */
  function Importable(n: ImportedNode): nat
    decreases n, |n.children| + 1
  {
    if EmptyLeaf(n) then 0 else 1 + ImportableChildren(n, |n.children|)
  }

  /** The entities created for the first k children of a node. */
  function ImportableChildren(n: ImportedNode, k: nat): nat
    requires k <= |n.children|
    decreases n, k
  {
    if k == 0 then 0 else ImportableChildren(n, k - 1) + Importable(n.children[k - 1])
  }

  /** What the import does to the game, in order. */
  datatype SceneEvent =
    | Created(entity: nat, name: string, parent: Option<nat>)
    | Placed(entity: nat, scale: Vec3, rotation: Vec3, position: Vec3)
    | MeshAdded(entity: nat, mesh: PrimitiveMesh3D)
    | RendererAdded(entity: nat, texture: Texture2D?, material: Material, layer: string)
    | LightAdded(entity: nat, material: Material)

  /** The game's entity manager, as far as the import uses it. */
  class World {
    var nextEntity: nat
    var events: seq<SceneEvent>

    constructor ()
      ensures nextEntity == 0 && events == []
    {
      nextEntity := 0;
      events := [];
    }

    /** createEntity, followed by SetParent when there is a parent. */
    method CreateEntity(name: string, parent: Option<nat>) returns (id: nat)
      modifies this
      ensures id == old(nextEntity) && nextEntity == id + 1 && events == old(events) + [Created(id, name, parent)]
    {
      id := nextEntity;
      nextEntity := nextEntity + 1;
      events := events + [Created(id, name, parent)];
    }

    /** A change to an existing entity. */
    method Record(e: SceneEvent)
      requires !e.Created?
      modifies this
      ensures nextEntity == old(nextEntity) && events == old(events) + [e]
    {
      events := events + [e];
    }
  }

  /** A block of events that imports a subtree: its entities are first up to next, the first is
      attached to parent, and every other is attached to an entity created before it in the block. */
  ghost predicate Subtree(es: seq<SceneEvent>, first: nat, next: nat, parent: Option<nat>)
  {
    forall j :: 0 <= j < |es| && es[j].Created? ==>
      && first <= es[j].entity < next
      && ((es[j].entity == first && es[j].parent == parent)
          || (es[j].parent.Some? && first <= es[j].parent.value < es[j].entity))
  }

  predicate NoneCreated(es: seq<SceneEvent>)
  {
    forall j :: 0 <= j < |es| ==> !es[j].Created?
  }

  /** What importing one mesh gave its entity: nothing for a skipped mesh; otherwise the mesh
      component's primitive, the renderer's texture and material, and the emission the material
      had when the import tested it for a point light. */
  datatype MeshComponents =
    | Skipped
    | Imported(primitive: PrimitiveMesh3D, texture: Texture2D?, material: Material, emission: Vec3)

  /** The events importing one mesh into an entity records. */
  function MeshEvents(entity: nat, c: MeshComponents): seq<SceneEvent>
  {
    match c
    case Skipped => []
    case Imported(p, t, m, emission) =>
      [MeshAdded(entity, p), RendererAdded(entity, t, m, "")] + (if emission != Zero3 then [LightAdded(entity, m)] else [])
  }

  /** The events importing a node's meshes records, mesh by mesh in order. */
  function MeshesEvents(entity: nat, cs: seq<MeshComponents>): seq<SceneEvent>
  {
    if cs == [] then [] else MeshesEvents(entity, cs[..|cs| - 1]) + MeshEvents(entity, cs[|cs| - 1])
  }

  /** Importing one more mesh appends its events. */
  lemma MeshesEventsSnoc(entity: nat, cs: seq<MeshComponents>, c: MeshComponents)
    ensures MeshesEvents(entity, cs + [c]) == MeshesEvents(entity, cs) + MeshEvents(entity, c)
  {
    assert (cs + [c])[..|cs|] == cs;
  }

  /** Every event of a mesh import is about the node's entity, and none creates an entity. */
  lemma {:induction false} MeshesEventsOn(entity: nat, cs: seq<MeshComponents>)
    ensures var es := MeshesEvents(entity, cs);
      NoneCreated(es) && forall j :: 0 <= j < |es| ==> es[j].entity == entity
    decreases |cs|
  {
    if cs != [] {
      MeshesEventsOn(entity, cs[..|cs| - 1]);
    }
  }

  /** The events a call appended, after a prefix: splitting a block where a later call began. */
  lemma SliceSplit(e0: seq<SceneEvent>, before: seq<SceneEvent>, after: seq<SceneEvent>)
    requires e0 <= before <= after
    ensures after[|e0|..] == before[|e0|..] + after[|before|..]
  {
  }

  /** An event already in the log stays there as the log grows. */
  lemma PrefixKeeps(before: seq<SceneEvent>, after: seq<SceneEvent>, e: SceneEvent)
    requires before <= after && e in before
    ensures e in after
  {
    var j :| 0 <= j < |before| && before[j] == e;
    assert after[j] == e;
  }

  /** The children created so far stay in the log as it grows, and the next one, unless it is
      skipped, is created under the node with the entity recorded for it. */
  lemma ChildCreated(node: ImportedNode, i: nat, starts: seq<nat>, before: seq<SceneEvent>, after: seq<SceneEvent>,
                     first: nat)
    requires i < |node.children| && |starts| == i + 1 && before <= after
    requires !EmptyLeaf(node.children[i]) ==> before + [Created(starts[i], node.children[i].name, Some(first))] <= after
    requires forall k :: 0 <= k < i && !EmptyLeaf(node.children[k]) ==>
      Created(starts[k], node.children[k].name, Some(first)) in before
    ensures forall k :: 0 <= k < i + 1 && !EmptyLeaf(node.children[k]) ==>
      Created(starts[k], node.children[k].name, Some(first)) in after
  {
    forall k | 0 <= k < i + 1 && !EmptyLeaf(node.children[k])
      ensures Created(starts[k], node.children[k].name, Some(first)) in after
    {
      if k < i {
        PrefixKeeps(before, after, Created(starts[k], node.children[k].name, Some(first)));
      } else {
        assert after[|before|] == Created(starts[i], node.children[i].name, Some(first));
      }
    }
  }

  /** The state after ImportNode's child loop has imported the first i children of a node whose
      entity is first: the node's block, begun at e0, is a subtree; the children's entities, one
      per child, come after first in order; and each child that is not skipped was created under
      the node with its name. */
  ghost predicate ChildrenImported(node: ImportedNode, i: nat, es: seq<SceneEvent>, e0: seq<SceneEvent>, first: nat,
                                   next: nat, parent: Option<nat>, starts: seq<nat>)
  {
    && i <= |node.children| && e0 <= es && next == first + 1 + ImportableChildren(node, i)
    && Subtree(es[|e0|..], first, next, parent)
    && |starts| == i
    && (forall k :: 0 <= k < i ==> first < starts[k] <= next)
    && (forall k :: 0 <= k < i && !EmptyLeaf(node.children[k]) ==> starts[k] < next)
    && (forall j, k :: 0 <= j < k < i && !EmptyLeaf(node.children[j]) ==> starts[j] < starts[k])
    && (forall k :: 0 <= k < i && !EmptyLeaf(node.children[k]) ==>
          Created(starts[k], node.children[k].name, Some(first)) in es)
  }

  /** The entities recorded for the children stay ordered when the next child's block, from mid up
      to next, is added. */
  lemma ChildOrdered(node: ImportedNode, i: nat, starts: seq<nat>, first: nat, mid: nat, next: nat)
    requires i < |node.children| && |starts| == i + 1 && starts[i] == mid && first < mid <= next
    requires !EmptyLeaf(node.children[i]) ==> mid < next
    requires forall k :: 0 <= k < i ==> first < starts[k] <= mid
    requires forall k :: 0 <= k < i && !EmptyLeaf(node.children[k]) ==> starts[k] < mid
    requires forall j, k :: 0 <= j < k < i && !EmptyLeaf(node.children[j]) ==> starts[j] < starts[k]
    ensures forall k :: 0 <= k < i + 1 ==> first < starts[k] <= next
    ensures forall k :: 0 <= k < i + 1 && !EmptyLeaf(node.children[k]) ==> starts[k] < next
    ensures forall j, k :: 0 <= j < k < i + 1 && !EmptyLeaf(node.children[j]) ==> starts[j] < starts[k]
  {
  }

  /** A child's block, attached to an entity of the block before it, continues the subtree. */
  lemma SubtreeAppend(a: seq<SceneEvent>, b: seq<SceneEvent>, first: nat, mid: nat, next: nat,
                      parent: Option<nat>, x: nat)
    requires Subtree(a, first, mid, parent) && Subtree(b, mid, next, Some(x)) && first <= x < mid <= next
    ensures Subtree(a + b, first, next, parent)
  {
    assert forall j :: 0 <= j < |a| ==> (a + b)[j] == a[j];
    assert forall j :: |a| <= j < |a + b| ==> (a + b)[j] == b[j - |a|];
  }

  /** Events that create nothing leave a subtree's block one. */
  lemma SubtreeExtend(a: seq<SceneEvent>, b: seq<SceneEvent>, first: nat, next: nat, parent: Option<nat>)
    requires Subtree(a, first, next, parent) && NoneCreated(b)
    ensures Subtree(a + b, first, next, parent)
  {
    assert forall j :: 0 <= j < |a| ==> (a + b)[j] == a[j];
    assert forall j :: |a| <= j < |a + b| ==> (a + b)[j] == b[j - |a|];
  }

  class ResourceManager {
    var textures: map<string, Texture2D?>
    var cubemaps: map<string, Cubemap?>
    var materials: map<string, Material?>
    var shaders: map<string, Shader?>
    /** The texture name glGenTextures hands out next. */
    var nextName: int

    predicate HasTexture(name: string)
      reads this
    {
      name in textures && textures[name] != null
    }

    predicate HasCubemap(name: string)
      reads this
    {
      name in cubemaps && cubemaps[name] != null
    }

    predicate HasMaterial(name: string)
      reads this
    {
      name in materials && materials[name] != null
    }

    predicate HasShader(name: string)
      reads this
    {
      name in shaders && shaders[name] != null
    }

    /** All four registries start empty. */
    constructor ()
      ensures textures == map[] && cubemaps == map[] && materials == map[] && shaders == map[]
      ensures nextName == 1
    {
      textures, cubemaps, materials, shaders := map[], map[], map[], map[];
      nextName := 1;
    }

    // ---------------------------------------------------------------- shaders

    /** Shaders[name]. */
    method ShaderAt(name: string) returns (s: Shader?)
      modifies this
      ensures shaders == Subscripted(old(shaders), name, null) && s == shaders[name]
      ensures textures == old(textures) && cubemaps == old(cubemaps) && materials == old(materials)
      ensures nextName == old(nextName)
    {
      if name !in shaders {
        shaders := shaders[name := null];
      }
      s := shaders[name];
    }

    /** GetShader: null from an empty registry; otherwise the lookup, which adds a null entry for an
        unknown name. */
    method GetShader(name: string) returns (s: Shader?)
      modifies this
      ensures old(shaders) == map[] ==> s == null && shaders == map[]
      ensures old(shaders) != map[] ==> shaders == Subscripted(old(shaders), name, null) && s == shaders[name]
      ensures textures == old(textures) && cubemaps == old(cubemaps) && materials == old(materials)
      ensures nextName == old(nextName)
    {
      if shaders == map[] {
        return null;
      }
      s := ShaderAt(name);
    }

    /** GenerateShaderFromFiles: a name that already holds a shader gets it back and nothing is
        rebuilt; otherwise both stages must compile, and the program linked from them is registered.
        A stage that does not compile stops the call, after the lookup left a null entry. */
    method GenerateShaderFromFiles(vertex: StageResult, fragment: StageResult, shaderName: string,
                                   linked: int, declaredUniforms: set<string>)
      returns (o: Outcome, s: Shader?)
      modifies this
      ensures old(HasShader(shaderName)) ==> o.Pass? && s == old(shaders[shaderName]) && shaders == old(shaders)
      ensures !old(HasShader(shaderName)) ==>
        (o.Pass? <==> vertex.Compiled? && fragment.Compiled?)
      ensures !old(HasShader(shaderName)) && o.Fail? ==>
        s == null && shaders == old(shaders)[shaderName := null]
      ensures !old(HasShader(shaderName)) && o.Pass? ==>
        && s != null && fresh(s) && shaders == old(shaders)[shaderName := s]
        && s.vertexShader == vertex.handle && s.fragmentShader == fragment.handle && s.program == linked
        && s.name == shaderName && s.declared == declaredUniforms && s.uniforms == map[] && s.Valid()
      ensures textures == old(textures) && cubemaps == old(cubemaps) && materials == old(materials)
      ensures nextName == old(nextName)
    {
      var existing := ShaderAt(shaderName);
      if existing == null {
        if vertex.CompileError? {
          return Fail(CompileFailure("Vertex", vertex.log)), null;
        }
        if fragment.CompileError? {
          return Fail(CompileFailure("Fragment", fragment.log)), null;
        }
        var shader := new Shader(vertex.handle, fragment.handle, shaderName, linked, declaredUniforms);
        shaders := shaders[shaderName := shader];
      }
      assert shaderName in shaders;
      s := GetShader(shaderName);
      o := Pass;
    }

    // ---------------------------------------------------------------- textures

    /** Textures[name]. */
    method TextureAt(name: string) returns (t: Texture2D?)
      modifies this
      ensures textures == Subscripted(old(textures), name, null) && t == textures[name]
      ensures cubemaps == old(cubemaps) && materials == old(materials) && shaders == old(shaders)
      ensures nextName == old(nextName)
    {
      if name !in textures {
        textures := textures[name := null];
      }
      t := textures[name];
    }

    /** glGenTextures: a new texture name. */
    method NewName() returns (id: int)
      modifies this
      ensures id == old(nextName) && nextName == old(nextName) + 1
      ensures textures == old(textures) && cubemaps == old(cubemaps) && materials == old(materials)
      ensures shaders == old(shaders)
    {
      id := nextName;
      nextName := nextName + 1;
    }

    /** The measure of the GetTexture / MakeDummy* recursion: GetTexture creates a placeholder only
        for its two reserved names, and the placeholder makers look the name up again once it holds
        a texture. */
    function PlaceholderDue(name: string): nat
      reads this
    {
      if (name == "default" && !HasTexture("default")) || (name == "default_normal" && !HasTexture("default_normal"))
      then 2 else 0
    }

    /** GetTexture: the reserved names "default" and "default_normal" get their placeholder created
        on first use; otherwise null from an empty registry, or the lookup, which adds a null entry
        for an unknown name. */
    method GetTexture(name: string) returns (t: Texture2D?)
      modifies this
      decreases PlaceholderDue(name)
      ensures name == "default" && !old(HasTexture("default")) ==>
        && t != null && fresh(t) && Placeholder(t, WHITE_PIXEL) && t.textureID == old(nextName)
        && textures == old(textures)["default" := t] && nextName == old(nextName) + 1
      ensures name == "default_normal" && !old(HasTexture("default_normal")) ==>
        && t != null && fresh(t) && Placeholder(t, FLAT_NORMAL_PIXEL) && t.textureID == old(nextName)
        && textures == old(textures)["default_normal" := t] && nextName == old(nextName) + 1
      ensures old(PlaceholderDue(name)) == 0 ==>
        && nextName == old(nextName)
        && (old(textures) == map[] ==> t == null && textures == map[])
        && (old(textures) != map[] ==> textures == Subscripted(old(textures), name, null) && t == textures[name])
      ensures cubemaps == old(cubemaps) && materials == old(materials) && shaders == old(shaders)
    {
      if name == "default" {
        var d := TextureAt("default");
        if d == null {
          t := MakeDummyTexture();
          return;
        }
      }
      if name == "default_normal" {
        var d := TextureAt("default_normal");
        if d == null {
          t := MakeDummyNormalMap();
          return;
        }
      }
      if textures == map[] {
        return null;
      }
      t := TextureAt(name);
    }

    /** MakeDummyTexture: registers the white placeholder under "default" unless a texture is
        already there, and returns what GetTexture("default") then finds. */
    method MakeDummyTexture() returns (t: Texture2D)
      modifies this
      decreases 1
      ensures old(HasTexture("default")) ==> t == old(textures["default"]) && textures == old(textures) && nextName == old(nextName)
      ensures !old(HasTexture("default")) ==>
        && fresh(t) && Placeholder(t, WHITE_PIXEL) && t.textureID == old(nextName)
        && textures == old(textures)["default" := t] && nextName == old(nextName) + 1
      ensures cubemaps == old(cubemaps) && materials == old(materials) && shaders == old(shaders)
    {
      var d := TextureAt("default");
      if d == null {
        var id := NewName();
        var texture := new Texture2D(id);
        texture.internalFormat := RGBA;
        texture.imageFormat := RGBA;
        texture.Generate(1, 1, WHITE_PIXEL);
        textures := textures["default" := texture];
      }
      var found := GetTexture("default");
      t := found;
    }

    /** MakeDummyNormalMap: the same for the flat-normal placeholder under "default_normal". */
    method MakeDummyNormalMap() returns (t: Texture2D)
      modifies this
      decreases 1
      ensures old(HasTexture("default_normal")) ==>
        t == old(textures["default_normal"]) && textures == old(textures) && nextName == old(nextName)
      ensures !old(HasTexture("default_normal")) ==>
        && fresh(t) && Placeholder(t, FLAT_NORMAL_PIXEL) && t.textureID == old(nextName)
        && textures == old(textures)["default_normal" := t] && nextName == old(nextName) + 1
      ensures cubemaps == old(cubemaps) && materials == old(materials) && shaders == old(shaders)
    {
      var d := TextureAt("default_normal");
      if d == null {
        var id := NewName();
        var texture := new Texture2D(id);
        texture.internalFormat := RGBA;
        texture.imageFormat := RGBA;
        texture.Generate(1, 1, FLAT_NORMAL_PIXEL);
        textures := textures["default_normal" := texture];
      }
      var found := GetTexture("default_normal");
      t := found;
    }

    /** loadTextureFromFile: a new texture holding the decoded image, or left as constructed when
        the file did not decode. */
    method LoadTextureFromFile(load: Option<Image>) returns (t: Texture2D)
      modifies this
      ensures fresh(t) && LoadedAs(t, load) && t.textureID == old(nextName) && nextName == old(nextName) + 1
      ensures textures == old(textures) && cubemaps == old(cubemaps) && materials == old(materials)
      ensures shaders == old(shaders)
    {
      var id := NewName();
      t := new Texture2D(id);
      if load.None? {
        return;
      }
      var img := load.value;
      if img.channels == 4 {
        t.internalFormat := RGBA;
        t.imageFormat := RGBA;
      }
      t.Generate(img.width, img.height, img.data);
    }

    /** GenerateTextureFromFile: a name that already holds a texture gets it back and nothing is
        loaded; otherwise the file's texture is registered under the name, even when it did not
        decode. */
    method GenerateTextureFromFile(load: Option<Image>, textureName: string) returns (t: Texture2D?)
      modifies this
      ensures old(HasTexture(textureName)) ==>
        t == old(textures[textureName]) && textures == old(textures) && nextName == old(nextName)
      ensures !old(HasTexture(textureName)) ==>
        && t != null && fresh(t) && LoadedAs(t, load) && t.textureID == old(nextName)
        && textures == old(textures)[textureName := t] && nextName == old(nextName) + 1
      ensures cubemaps == old(cubemaps) && materials == old(materials) && shaders == old(shaders)
    {
      var existing := TextureAt(textureName);
      if existing == null {
        var texture := LoadTextureFromFile(load);
        textures := textures[textureName := texture];
      }
      assert HasTexture(textureName) && PlaceholderDue(textureName) == 0;
      t := GetTexture(textureName);
    }

    // ---------------------------------------------------------------- cubemaps

    /** Cubemaps[name]. */
    method CubemapAt(name: string) returns (c: Cubemap?)
      modifies this
      ensures cubemaps == Subscripted(old(cubemaps), name, null) && c == cubemaps[name]
      ensures textures == old(textures) && materials == old(materials) && shaders == old(shaders)
      ensures nextName == old(nextName)
    {
      if name !in cubemaps {
        cubemaps := cubemaps[name := null];
      }
      c := cubemaps[name];
    }

    /** GetCubemap: null from an empty registry; otherwise the lookup. */
    method GetCubemap(name: string) returns (c: Cubemap?)
      modifies this
      ensures old(cubemaps) == map[] ==> c == null && cubemaps == map[]
      ensures old(cubemaps) != map[] ==> cubemaps == Subscripted(old(cubemaps), name, null) && c == cubemaps[name]
      ensures textures == old(textures) && materials == old(materials) && shaders == old(shaders)
      ensures nextName == old(nextName)
    {
      if cubemaps == map[] {
        return null;
      }
      c := CubemapAt(name);
    }

    /** loadCubemapFromFiles: fewer than six files give the cubemap as constructed, without
        parameters; otherwise every file that decodes becomes the next face (a file that does not
        is skipped and takes no face index), any four-channel file switches the format to RGBA, a
        face of other dimensions than the first stops the load, and the sampling parameters are set
        at the end. */
    method LoadCubemapFromFiles(loads: seq<Option<Image>>) returns (o: Outcome, c: Cubemap)
      modifies this
      ensures fresh(c) && c.textureID == old(nextName) && nextName == old(nextName) + 1
      ensures |loads| < 6 ==>
        && o.Pass? && c.faces == map[] && !c.paramsSet && c.width == -1 && c.height == -1
        && c.internalFormat == RGB && c.imageFormat == RGB
      ensures |loads| >= 6 ==>
        (o.Pass? <==> FoldDims(-1, Widths(Loaded(loads))).Some? && FoldDims(-1, Heights(Loaded(loads))).Some?)
      ensures |loads| >= 6 && o.Pass? ==> c.paramsSet && Received(c, Loaded(loads))
      ensures textures == old(textures) && cubemaps == old(cubemaps) && materials == old(materials)
      ensures shaders == old(shaders)
    {
      var id := NewName();
      c := new Cubemap(id);
      if |loads| < 6 {
        return Pass, c;
      }
      o := ReceiveAll(c, loads);
      if o.Fail? {
        return;
      }
      c.SetParams();
      o := Pass;
    }

    /** GenerateCubemapFromFiles: a name that already holds a cubemap gets it back and nothing is
        loaded; otherwise the loaded cubemap is registered, unless its load stopped, which leaves the
        null entry of the lookup. */
    method GenerateCubemapFromFiles(loads: seq<Option<Image>>, cubemapName: string) returns (o: Outcome, c: Cubemap?)
      modifies this
      ensures old(HasCubemap(cubemapName)) ==>
        o.Pass? && c == old(cubemaps[cubemapName]) && cubemaps == old(cubemaps) && nextName == old(nextName)
      ensures !old(HasCubemap(cubemapName)) && o.Fail? ==> c == null && cubemaps == old(cubemaps)[cubemapName := null]
      ensures !old(HasCubemap(cubemapName)) && o.Pass? ==>
        && c != null && fresh(c) && cubemaps == old(cubemaps)[cubemapName := c] && c.textureID == old(nextName)
        && (|loads| >= 6 ==> c.paramsSet && Received(c, Loaded(loads)))
        && (|loads| < 6 ==> c.faces == map[] && !c.paramsSet && c.width == -1 && c.height == -1)
      ensures !old(HasCubemap(cubemapName)) ==>
        (o.Pass? <==> |loads| < 6 || (FoldDims(-1, Widths(Loaded(loads))).Some? && FoldDims(-1, Heights(Loaded(loads))).Some?))
      ensures textures == old(textures) && materials == old(materials) && shaders == old(shaders)
    {
      var existing := CubemapAt(cubemapName);
      if existing == null {
        var loaded;
        o, loaded := LoadCubemapFromFiles(loads);
        if o.Fail? {
          return o, null;
        }
        cubemaps := cubemaps[cubemapName := loaded];
      }
      assert cubemapName in cubemaps;
      c := GetCubemap(cubemapName);
      o := Pass;
    }

    // ---------------------------------------------------------------- materials

    /** Materials[name]. */
    method MaterialAt(name: string) returns (m: Material?)
      modifies this
      ensures materials == Subscripted(old(materials), name, null) && m == materials[name]
      ensures textures == old(textures) && cubemaps == old(cubemaps) && shaders == old(shaders)
      ensures nextName == old(nextName)
    {
      if name !in materials {
        materials := materials[name := null];
      }
      m := materials[name];
    }

    /** LoadMaterial: a material whose name is already registered gets the registered one back,
        with its fields as they were; otherwise a new material with the imported data is
        registered under the name. */
    method LoadMaterial(imported: ImportedMaterial) returns (r: Material)
      modifies this
      ensures old(HasMaterial(imported.name)) ==> r == old(materials[imported.name]) && materials == old(materials)
      ensures !old(HasMaterial(imported.name)) ==>
        fresh(r) && r.Data() == ImportedData(imported) && materials == old(materials)[imported.name := r]
      ensures textures == old(textures) && cubemaps == old(cubemaps) && shaders == old(shaders)
      ensures nextName == old(nextName)
    {
      var matName := imported.name;
      var existing := MaterialAt(matName);
      if existing == null {
        var result := new Material(matName);
        materials := materials[matName := result];
        SetImported(result, imported);
      }
      var found := MaterialAt(matName);
      r := found;
    }

    /** The shared first step of GetMaterial and GetMaterialInstance: "default" is created on first
        use. */
    method EnsureDefaultMaterial(matname: string)
      modifies this
      ensures matname == "default" && !old(HasMaterial("default")) ==>
        && HasMaterial("default") && fresh(materials["default"]) && materials["default"].Data() == DEFAULT_MATERIAL
        && materials == old(materials)["default" := materials["default"]]
      ensures !(matname == "default" && !old(HasMaterial("default"))) ==> materials == old(materials)
      ensures textures == old(textures) && cubemaps == old(cubemaps) && shaders == old(shaders)
      ensures nextName == old(nextName)
    {
      if matname == "default" {
        var d := MaterialAt("default");
        if d == null {
          var m := new Material("default");
          materials := materials["default" := m];
        }
      }
    }

    /** GetMaterial: "default" is created on first use; otherwise null from an empty registry, or
        the lookup, which adds a null entry for an unknown name. */
    method GetMaterial(matname: string) returns (r: Material?)
      modifies this
      ensures matname == "default" && !old(HasMaterial("default")) ==>
        r != null && fresh(r) && r.Data() == DEFAULT_MATERIAL && materials == old(materials)["default" := r]
      ensures !(matname == "default" && !old(HasMaterial("default"))) ==>
        && (old(materials) == map[] ==> r == null && materials == map[])
        && (old(materials) != map[] ==> materials == Subscripted(old(materials), matname, null) && r == materials[matname])
      ensures textures == old(textures) && cubemaps == old(cubemaps) && shaders == old(shaders)
      ensures nextName == old(nextName)
    {
      EnsureDefaultMaterial(matname);
      if materials == map[] {
        return null;
      }
      r := MaterialAt(matname);
    }

    /** GetMaterialInstance: a new copy of the registered material, which no registry entry is, so
        changes made through it leave the registry as it is. The registry entries themselves are
        not changed. */
    method GetMaterialInstance(matname: string) returns (r: Material?)
      modifies this
      ensures matname == "default" ==> r != null
      ensures r != null ==> fresh(r) && matname in materials && materials[matname] != null
      ensures r != null ==> r.Data() == materials[matname].Data()
      ensures r != null ==> forall k :: k in materials ==> materials[k] != r
      ensures matname == "default" && !old(HasMaterial("default")) ==>
        r.Data() == DEFAULT_MATERIAL && materials == old(materials)["default" := materials["default"]]
      ensures !(matname == "default" && !old(HasMaterial("default"))) ==>
        && (old(materials) == map[] ==> r == null && materials == map[])
        && (old(materials) != map[] ==> materials == Subscripted(old(materials), matname, null))
        && (old(HasMaterial(matname)) ==> r != null && r.Data() == old(materials[matname].Data()))
      ensures textures == old(textures) && cubemaps == old(cubemaps) && shaders == old(shaders)
      ensures nextName == old(nextName)
    {
      EnsureDefaultMaterial(matname);
      if materials == map[] {
        return null;
      }
      var entry := MaterialAt(matname);
      if entry == null {
        return null;
      }
      r := entry.Copy();
    }

    // ---------------------------------------------------------------- imported textures

    /** ImportTextureFromAssimp: only embedded textures are imported; an empty path, and a path to a
        file, give the "default" texture. An embedded texture is registered under its file name
        unless that name already holds one; one that does not decode gives null, after the lookup
        left a null entry. */
    method ImportTextureFromAssimp(path: string, embedded: map<string, EmbeddedTexture>) returns (t: Texture2D?)
      requires Embedded(path) ==> path in embedded
      modifies this
      ensures !Embedded(path) ==> t != null && "default" in textures && t == textures["default"]
      ensures !Embedded(path) && old(HasTexture("default")) ==> textures == old(textures) && nextName == old(nextName)
      ensures !Embedded(path) && !old(HasTexture("default")) ==>
        fresh(t) && Placeholder(t, WHITE_PIXEL) && textures == old(textures)["default" := t]
      ensures Embedded(path) && old(HasTexture(embedded[path].fileName)) ==>
        t == old(textures[embedded[path].fileName]) && textures == old(textures) && nextName == old(nextName)
      ensures Embedded(path) && !old(HasTexture(embedded[path].fileName)) && embedded[path].decoded.None? ==>
        t == null && textures == old(textures)[embedded[path].fileName := null] && nextName == old(nextName)
      ensures Embedded(path) && !old(HasTexture(embedded[path].fileName)) && embedded[path].decoded.Some? ==>
        && t != null && fresh(t) && LoadedAs(t, embedded[path].decoded) && t.textureID == old(nextName)
        && textures == old(textures)[embedded[path].fileName := t] && nextName == old(nextName) + 1
      ensures cubemaps == old(cubemaps) && materials == old(materials) && shaders == old(shaders)
    {
      if !Embedded(path) {
        t := GetTexture("default");
        return;
      }
      var tex := embedded[path];
      var textureName := tex.fileName;
      var existing := TextureAt(textureName);
      if existing == null {
        if tex.decoded.None? {
          return null;
        }
        var texture := LoadTextureFromFile(tex.decoded);
        textures := textures[textureName := texture];
      }
      assert HasTexture(textureName) && PlaceholderDue(textureName) == 0;
      t := GetTexture(textureName);
    }

    // ---------------------------------------------------------------- 3D asset import

    /** No registered material is replaced: later imports of a mesh only add materials. */
    ghost predicate MaterialsKept(m0: map<string, Material?>, m1: map<string, Material?>)
    {
      forall n :: n in m0 && m0[n] != null ==> n in m1 && m1[n] == m0[n]
    }

    /** The components of an imported mesh: its primitive is the mesh as ImportMesh converts it,
        and its renderer got the registered material the mesh names. */
    ghost predicate ImportedFrom(c: MeshComponents, scene: ImportedScene, mesh: ImportedMesh,
                                 registered: map<string, Material?>)
      requires c.Imported?
    {
      && MeshReadable(mesh)
      && c.primitive == NewPrimitiveMesh3D(mesh.vertices, Flatten(mesh.faces), Some(mesh.normals), Some(UVsOf(mesh)),
                                           Some(mesh.tangents), Some(mesh.bitangents))
      && mesh.materialIndex < |scene.materials|
      && scene.materials[mesh.materialIndex].name in registered
      && c.material == registered[scene.materials[mesh.materialIndex].name]
    }



    /** A later import keeps the material an earlier mesh's renderer got registered. */
    lemma ImportedFromKept(c: MeshComponents, scene: ImportedScene, mesh: ImportedMesh,
                           m0: map<string, Material?>, m1: map<string, Material?>)
      requires c.Imported? && ImportedFrom(c, scene, mesh, m0) && MaterialsKept(m0, m1)
      ensures ImportedFrom(c, scene, mesh, m1)
    {
      var n := scene.materials[mesh.materialIndex].name;
      assert n in m0 && m0[n] != null;
    }

    /** The components c of one mesh: skipped exactly when the mesh is, and otherwise ImportedFrom
        the registered materials. */
    ghost predicate ComponentsOf(c: MeshComponents, scene: ImportedScene, mesh: ImportedMesh,
                                 registered: map<string, Material?>)
    {
      && (c.Skipped? <==> SkippedMesh(mesh))
      && (c.Imported? ==> ImportedFrom(c, scene, mesh, registered))
    }

    /** The components cs of the first |cs| meshes, each ComponentsOf its mesh. */
    ghost predicate MeshesFrom(cs: seq<MeshComponents>, scene: ImportedScene, meshes: seq<nat>,
                               registered: map<string, Material?>)
      decreases |cs|
    {
      && |cs| <= |meshes|
      && (cs != [] ==>
            && MeshesFrom(cs[..|cs| - 1], scene, meshes, registered)
            && meshes[|cs| - 1] < |scene.meshes|
            && ComponentsOf(cs[|cs| - 1], scene, scene.meshes[meshes[|cs| - 1]], registered))
    }

    /** MeshesFrom, mesh by mesh: the k-th components are ComponentsOf the k-th mesh. */
    lemma {:induction false} MeshesFromAt(cs: seq<MeshComponents>, scene: ImportedScene, meshes: seq<nat>,
                                          registered: map<string, Material?>, k: nat)
      requires MeshesFrom(cs, scene, meshes, registered) && k < |cs|
      ensures meshes[k] < |scene.meshes| && ComponentsOf(cs[k], scene, scene.meshes[meshes[k]], registered)
      decreases |cs|
    {
      if k < |cs| - 1 {
        MeshesFromAt(cs[..|cs| - 1], scene, meshes, registered, k);
      }
    }

    /** MeshesFrom grows by the components of the next mesh. */
    lemma MeshesFromExtend(cs: seq<MeshComponents>, c: MeshComponents, scene: ImportedScene, meshes: seq<nat>,
                           registered: map<string, Material?>)
      requires MeshesFrom(cs, scene, meshes, registered) && |cs| < |meshes|
      requires meshes[|cs|] < |scene.meshes| && ComponentsOf(c, scene, scene.meshes[meshes[|cs|]], registered)
      ensures MeshesFrom(cs + [c], scene, meshes, registered)
    {
      assert (cs + [c])[..|cs|] == cs;
    }

    /** MeshesFrom survives a later import that keeps the registered materials. */
    lemma {:induction false} MeshesFromKept(cs: seq<MeshComponents>, scene: ImportedScene, meshes: seq<nat>,
                                            m0: map<string, Material?>, m1: map<string, Material?>)
      requires MeshesFrom(cs, scene, meshes, m0) && MaterialsKept(m0, m1)
      ensures MeshesFrom(cs, scene, meshes, m1)
      decreases |cs|
    {
      if cs != [] {
        MeshesFromKept(cs[..|cs| - 1], scene, meshes, m0, m1);
        var c := cs[|cs| - 1];
        if c.Imported? {
          ImportedFromKept(c, scene, scene.meshes[meshes[|cs| - 1]], m0, m1);
        }
      }
    }

    /** The body of ImportNode's mesh loop for one mesh: a mesh without positions or vertices is
        skipped; otherwise the entity gets the imported mesh and a renderer with the material and
        texture of the mesh, in the layer "", and a point light sharing that material when the
        material's emission is not zero. */
    method ImportMeshInto(world: World, scene: ImportedScene, entity: nat, meshIndex: nat)
      returns (ghost c: MeshComponents)
      requires SceneReadable(scene) && meshIndex < |scene.meshes|
      modifies this, world
      ensures world.nextEntity == old(world.nextEntity)
      ensures world.events == old(world.events) + MeshEvents(entity, c)
      ensures ComponentsOf(c, scene, scene.meshes[meshIndex], materials)
      ensures c.Imported? ==> c.emission == c.material.emission
      ensures MaterialsKept(old(materials), materials)
    {
      var mesh := scene.meshes[meshIndex];
      if !mesh.hasPositions || |mesh.vertices| == 0 {
        return Skipped;
      }
      var primitive := ImportMesh(mesh);
      var assimpMaterial := scene.materials[mesh.materialIndex];
      var m := LoadMaterial(assimpMaterial);
      assert m == materials[assimpMaterial.name];
      var t := ImportTextureFromAssimp(assimpMaterial.diffusePath, scene.embedded);
      world.Record(MeshAdded(entity, primitive));
      world.Record(RendererAdded(entity, t, m, ""));
      if m.emission != Zero3 {
        world.Record(LightAdded(entity, m));
      }
      c := Imported(primitive, t, m, m.emission);
    }

    /** ImportNode's mesh loop: every mesh of the node is imported into its entity, in order, and
        no entity is created. */
    method ImportMeshesInto(world: World, scene: ImportedScene, entity: nat, meshes: seq<nat>)
      returns (ghost cs: seq<MeshComponents>)
      requires SceneReadable(scene) && forall k :: 0 <= k < |meshes| ==> meshes[k] < |scene.meshes|
      modifies this, world
      ensures world.nextEntity == old(world.nextEntity) && |cs| == |meshes|
      ensures world.events == old(world.events) + MeshesEvents(entity, cs)
      ensures MeshesFrom(cs, scene, meshes, materials)
      ensures forall k :: 0 <= k < |cs| && cs[k].Imported? ==> cs[k].emission == cs[k].material.emission
      ensures MaterialsKept(old(materials), materials)
    {
      cs := [];
      var i := 0;
      while i < |meshes|
        invariant 0 <= i <= |meshes| && world.nextEntity == old(world.nextEntity) && |cs| == i
        invariant world.events == old(world.events) + MeshesEvents(entity, cs)
        invariant MeshesFrom(cs, scene, meshes, materials)
        invariant forall k :: 0 <= k < |cs| && cs[k].Imported? ==> cs[k].emission == cs[k].material.emission
        invariant MaterialsKept(old(materials), materials)
      {
        cs := ImportMeshStep(world, scene, entity, meshes, i, cs, old(world.events), old(materials));
        i := i + 1;
      }
    }

    /** One iteration of the mesh loop: the next mesh is imported and its components appended to
        those of the meshes before it. */
    method ImportMeshStep(world: World, scene: ImportedScene, entity: nat, meshes: seq<nat>, i: nat,
                          ghost cs: seq<MeshComponents>, ghost e0: seq<SceneEvent>, ghost m0: map<string, Material?>)
      returns (ghost cs': seq<MeshComponents>)
      requires SceneReadable(scene) && forall k :: 0 <= k < |meshes| ==> meshes[k] < |scene.meshes|
      requires i == |cs| < |meshes| && world.events == e0 + MeshesEvents(entity, cs)
      requires MeshesFrom(cs, scene, meshes, materials) && MaterialsKept(m0, materials)
      requires forall k :: 0 <= k < |cs| && cs[k].Imported? ==> cs[k].emission == cs[k].material.emission
      modifies this, world
      ensures world.nextEntity == old(world.nextEntity) && |cs'| == |cs| + 1
      ensures world.events == e0 + MeshesEvents(entity, cs')
      ensures MeshesFrom(cs', scene, meshes, materials) && MaterialsKept(m0, materials)
      ensures forall k :: 0 <= k < |cs'| && cs'[k].Imported? ==> cs'[k].emission == cs'[k].material.emission
    {
      ghost var before := materials;
      var c := ImportMeshInto(world, scene, entity, meshes[i]);
      MeshesFromKept(cs, scene, meshes, before, materials);
      MeshesFromExtend(cs, c, scene, meshes, materials);
      MeshesEventsSnoc(entity, cs, c);
      cs' := cs + [c];
    }

    /** ImportNode: a node with neither meshes nor children adds nothing; otherwise it becomes an
        entity attached to the parent and placed by the node's transformation, its meshes are
        imported into it, and each child is imported under it. */
    method ImportNode(world: World, scene: ImportedScene, node: ImportedNode, parent: Option<nat>)
      returns (ghost childEntities: seq<nat>, ghost cs: seq<MeshComponents>)
      requires SceneReadable(scene) && NodeReadable(node, |scene.meshes|)
      modifies this, world
      decreases node, 2
      ensures world.nextEntity == old(world.nextEntity) + Importable(node)
      ensures EmptyLeaf(node) ==> world.events == old(world.events)
      ensures old(world.events) <= world.events
      ensures !EmptyLeaf(node) ==>
        old(world.events) + [Created(old(world.nextEntity), node.name, parent),
                             Placed(old(world.nextEntity), node.scale, node.rotation, node.position)]
        <= world.events
      ensures Subtree(world.events[|old(world.events)|..], old(world.nextEntity), world.nextEntity, parent)
      ensures !EmptyLeaf(node) ==>
        ChildrenImported(node, |node.children|, world.events, old(world.events), old(world.nextEntity), world.nextEntity,
                         parent, childEntities)
      ensures !EmptyLeaf(node) ==>
        && |cs| == |node.meshes|
        && old(world.events) + [Created(old(world.nextEntity), node.name, parent),
                                Placed(old(world.nextEntity), node.scale, node.rotation, node.position)]
             + MeshesEvents(old(world.nextEntity), cs) <= world.events
        && MeshesFrom(cs, scene, node.meshes, materials)
      ensures MaterialsKept(old(materials), materials)
    {
      ghost var e0 := world.events;
      if |node.meshes| == 0 && |node.children| == 0 {
        assert world.events[|e0|..] == [];
        return [], [];
      }
      var nodeEntity;
      nodeEntity, cs := ImportOwn(world, scene, node, parent);
      ghost var own := world.events;
      ghost var registered := materials;
      childEntities := ImportChildren(world, scene, node, nodeEntity, e0, parent);
      assert own <= world.events;
      MeshesFromKept(cs, scene, node.meshes, registered, materials);
    }

    /** The node's own part of ImportNode, for a node it does not skip: the node's entity, attached
        to the parent and placed by the node's transformation, then the node's meshes imported into
        it in order. */
    method ImportOwn(world: World, scene: ImportedScene, node: ImportedNode, parent: Option<nat>)
      returns (nodeEntity: nat, ghost cs: seq<MeshComponents>)
      requires SceneReadable(scene) && NodeReadable(node, |scene.meshes|)
      modifies this, world
      ensures nodeEntity == old(world.nextEntity) && world.nextEntity == nodeEntity + 1 && |cs| == |node.meshes|
      ensures world.events
        == old(world.events) + [Created(nodeEntity, node.name, parent),
                                Placed(nodeEntity, node.scale, node.rotation, node.position)]
           + MeshesEvents(nodeEntity, cs)
      ensures Subtree(world.events[|old(world.events)|..], nodeEntity, world.nextEntity, parent)
      ensures MeshesFrom(cs, scene, node.meshes, materials)
      ensures forall k :: 0 <= k < |cs| && cs[k].Imported? ==> cs[k].emission == cs[k].material.emission
      ensures MaterialsKept(old(materials), materials)
    {
      ghost var e0 := world.events;
      nodeEntity := world.CreateEntity(node.name, parent);
      world.Record(Placed(nodeEntity, node.scale, node.rotation, node.position));
      ghost var head := world.events;
      assert Subtree(world.events[|e0|..], nodeEntity, world.nextEntity, parent) by {
        assert world.events[|e0|..]
            == [Created(nodeEntity, node.name, parent), Placed(nodeEntity, node.scale, node.rotation, node.position)];
      }
      cs := ImportMeshesInto(world, scene, nodeEntity, node.meshes);
      MeshesEventsOn(nodeEntity, cs);
      SliceSplit(e0, head, world.events);
      SubtreeExtend(head[|e0|..], world.events[|head|..], nodeEntity, world.nextEntity, parent);
    }

    /** ImportNode's child loop: each child is imported in turn under the node's entity, the first
        entity of the block the node's import began at e0. */
    method ImportChildren(world: World, scene: ImportedScene, node: ImportedNode, nodeEntity: nat,
                          ghost e0: seq<SceneEvent>, ghost parent: Option<nat>)
      returns (ghost childEntities: seq<nat>)
      requires SceneReadable(scene) && NodeReadable(node, |scene.meshes|)
      requires e0 <= world.events && world.nextEntity == nodeEntity + 1
      requires Subtree(world.events[|e0|..], nodeEntity, world.nextEntity, parent)
      modifies this, world
      decreases node, 1
      ensures old(world.events) <= world.events
      ensures ChildrenImported(node, |node.children|, world.events, e0, nodeEntity, world.nextEntity, parent, childEntities)
      ensures MaterialsKept(old(materials), materials)
    {
      childEntities := [];
      var i := 0;
      while i < |node.children|
        invariant 0 <= i <= |node.children| && old(world.events) <= world.events
        invariant ChildrenImported(node, i, world.events, e0, nodeEntity, world.nextEntity, parent, childEntities)
        invariant MaterialsKept(old(materials), materials)
      {
        childEntities := ImportChild(world, scene, node, i, nodeEntity, e0, parent, childEntities);
        i := i + 1;
      }
    }

    /** One iteration of the child loop: the i-th child is imported under the node's entity. */
    method ImportChild(world: World, scene: ImportedScene, node: ImportedNode, i: nat, first: nat,
                       ghost e0: seq<SceneEvent>, ghost parent: Option<nat>, ghost starts: seq<nat>)
      returns (ghost starts': seq<nat>)
      requires SceneReadable(scene) && NodeReadable(node, |scene.meshes|) && i < |node.children|
      requires ChildrenImported(node, i, world.events, e0, first, world.nextEntity, parent, starts)
      modifies this, world
      decreases node, 0
      ensures old(world.events) <= world.events
      ensures ChildrenImported(node, i + 1, world.events, e0, first, world.nextEntity, parent, starts')
      ensures MaterialsKept(old(materials), materials)
    {
      ghost var before := world.events;
      ghost var mid := world.nextEntity;
      var _, _ := ImportNode(world, scene, node.children[i], Some(first));
      starts' := starts + [mid];
      ChildCreated(node, i, starts', before, world.events, first);
      ChildOrdered(node, i, starts', first, mid, world.nextEntity);
      SliceSplit(e0, before, world.events);
      SubtreeAppend(before[|e0|..], world.events[|before|..], first, mid, world.nextEntity, parent, first);
    }

    /** Load3DObject: no entity when the scene failed to load (no scene, an incomplete one, or one
        without a root node); otherwise a root entity named after the file, with the scene's root
        node imported under it. */
    method Load3DObject(world: World, scene: Option<ImportedScene>, fileName: string) returns (root: Option<nat>)
      requires scene.Some? ==> SceneReadable(scene.value) && NodeReadable(scene.value.root, |scene.value.meshes|)
      modifies this, world
      ensures scene.None? ==> root.None? && world.events == old(world.events) && world.nextEntity == old(world.nextEntity)
      ensures scene.None? ==> textures == old(textures) && materials == old(materials) && nextName == old(nextName)
      ensures scene.Some? ==>
        && root == Some(old(world.nextEntity))
        && world.nextEntity == old(world.nextEntity) + 1 + Importable(scene.value.root)
        && old(world.events) + [Created(old(world.nextEntity), fileName, None)] <= world.events
        && Subtree(world.events[|old(world.events)|..], old(world.nextEntity), world.nextEntity, None)
    {
      if scene.None? {
        return None;
      }
      ghost var e0 := world.events;
      var rootEntity := world.CreateEntity(fileName, None);
      assert Subtree(world.events[|e0|..], rootEntity, world.nextEntity, None) by {
        assert world.events[|e0|..] == [Created(rootEntity, fileName, None)];
      }
      ghost var before := world.events;
      var _, _ := ImportNode(world, scene.value, scene.value.root, Some(rootEntity));
      SliceSplit(e0, before, world.events);
      SubtreeAppend(before[|e0|..], world.events[|before|..], rootEntity, rootEntity + 1, world.nextEntity, None, rootEntity);
      root := Some(rootEntity);
    }
  }
}
