/** The two components that hand data to a shader: a point light writes its colour, position and
    intensity into the light array of the lighting shader, and a renderer applies its material and
    binds its diffuse texture and normal map. A light's colour and intensity live in the material it
    shares with its mesh's renderer. */
module Components {
  import opened Vectors
  import opened Matrices
  import opened Shading
  import opened Materials
  import opened Textures
  import opened Resources
  import opened SceneGraph

  // ------------------------------------------------------------------ uniform names

  function Digit(d: nat): char
    requires d < 10
  {
    "0123456789"[d]
  }

  predicate IsDigit(c: char)
  {
    '0' <= c <= '9'
  }

  /** The decimal digits of n, most significant first, as a stream inserter writes them. */
  function NatToString(n: nat): (s: string)
    ensures |s| > 0 && (|s| == 1 <==> n < 10)
    ensures forall k :: 0 <= k < |s| ==> IsDigit(s[k])
  {
    if n < 10 then [Digit(n)] else NatToString(n / 10) + [Digit(n % 10)]
  }

  /** An int as a stream inserter writes it: a minus sign before the digits of a negative number. */
  function IntToString(i: int): string
  {
    if i < 0 then "-" + NatToString(-i) else NatToString(i)
  }

  /** Different numbers have different decimal forms. */
  lemma {:induction false} NatToStringInjective(a: nat, b: nat)
    requires NatToString(a) == NatToString(b)
    ensures a == b
    decreases a
  {
    if a >= 10 {
      var sa, sb := NatToString(a), NatToString(b);
      assert sa[..|sa| - 1] == NatToString(a / 10);
      assert sb[..|sb| - 1] == NatToString(b / 10);
      NatToStringInjective(a / 10, b / 10);
      assert Digit(a % 10) == sa[|sa| - 1] == sb[|sb| - 1] == Digit(b % 10);
    }
  }

  /** Different ints have different forms. */
  lemma IntToStringInjective(i: int, j: int)
    requires IntToString(i) == IntToString(j)
    ensures i == j
  {
    IntToStringSign(i);
    IntToStringSign(j);
    if i < 0 {
      NatToStringInjective(-i, -j);
    } else {
      NatToStringInjective(i, j);
    }
  }

  /** The form of an int starts with a minus sign exactly when it is negative, and the digits of its
      magnitude follow the sign. */
  lemma IntToStringSign(i: int)
    ensures |IntToString(i)| > 0 && (IntToString(i)[0] == '-' <==> i < 0)
    ensures i < 0 ==> IntToString(i)[1..] == NatToString(-i)
    ensures i >= 0 ==> IntToString(i) == NatToString(i)
  {
    var s := IntToString(i);
    if i >= 0 {
      assert IsDigit(s[0]);
    }
  }

  /** The form of an int is a minus sign or digits, so it holds no closing bracket. */
  lemma IntToStringNoBracket(i: int)
    ensures forall k :: 0 <= k < |IntToString(i)| ==> IntToString(i)[k] != ']'
  {
    if i < 0 {
      var s := IntToString(i);
      assert forall k :: 1 <= k < |s| ==> s[k] == NatToString(-i)[k - 1];
    }
  }

  /** The name PointLight::Apply composes for a field of the index-th light. */
  function LightUniform(index: int, field: string): string
  {
    "lights[" + IntToString(index) + "]." + field
  }

  /** In a light's uniform name, the index ends at the first closing bracket. */
  lemma LightUniformBracket(index: int, field: string)
    ensures var u, s := LightUniform(index, field), IntToString(index);
      && |u| == 9 + |s| + |field|
      && u[7 + |s|] == ']'
      && (forall k :: 0 <= k < |s| ==> u[7 + k] == s[k] && u[7 + k] != ']')
      && u[7..7 + |s|] == s && u[9 + |s|..] == field
  {
    IntToStringNoBracket(index);
  }

  /** Two lights' uniform names agree only when both the index and the field agree. */
  lemma LightUniformInjective(i: int, j: int, f: string, g: string)
    ensures LightUniform(i, f) == LightUniform(j, g) <==> i == j && f == g
  {
    if LightUniform(i, f) == LightUniform(j, g) {
      var si, sj := IntToString(i), IntToString(j);
      LightUniformBracket(i, f);
      LightUniformBracket(j, g);
      assert |si| == |sj|;
      IntToStringInjective(i, j);
    }
  }

  /** The uniform writes of PointLight::Apply, in order. */
  function LightWrites(index: int, emission: Vec3, position: Vec3, intensity: real): seq<Write>
  {
    [Write(LightUniform(index, "emission"), Vector3(emission)),
     Write(LightUniform(index, "pos"), Vector3(position)),
     Write(LightUniform(index, "I"), Float(intensity))]
  }

  /** After PointLight::Apply, the light's emission, pos and I hold its emission, position and
      intensity where the program declares them, and no other uniform changes, so lights with other
      indices keep theirs. */
  lemma LightUniforms(store: map<string, Uniform>, declared: set<string>, index: int, emission: Vec3, position: Vec3,
                      intensity: real, name: string)
    ensures var s := WrittenAll(store, declared, LightWrites(index, emission, position, intensity));
      && (name in declared && name == LightUniform(index, "emission") ==> name in s && s[name] == Vector3(emission))
      && (name in declared && name == LightUniform(index, "pos") ==> name in s && s[name] == Vector3(position))
      && (name in declared && name == LightUniform(index, "I") ==> name in s && s[name] == Float(intensity))
      && (name !in {LightUniform(index, "emission"), LightUniform(index, "pos"), LightUniform(index, "I")} ==>
            (name in s <==> name in store) && (name in store ==> name in s && s[name] == store[name]))
  {
    var ws := LightWrites(index, emission, position, intensity);
    WrittenAllLookup(store, declared, ws, name);
    LightUniformInjective(index, index, "emission", "pos");
    LightUniformInjective(index, index, "emission", "I");
    LightUniformInjective(index, index, "pos", "I");
    if name == LightUniform(index, "emission") {
      LastWriteAt(ws, 0);
    } else if name == LightUniform(index, "pos") {
      LastWriteAt(ws, 1);
    } else if name == LightUniform(index, "I") {
      LastWriteAt(ws, 2);
    } else {
      assert name !in Names(ws);
      LastWriteAbsent(ws, name);
    }
  }

  /** Applying the light with index j leaves every uniform of the light with index i != j as it was. */
  lemma LightsIndependent(store: map<string, Uniform>, declared: set<string>, i: int, j: int, emission: Vec3,
                          position: Vec3, intensity: real, field: string)
    requires i != j
    ensures var s := WrittenAll(store, declared, LightWrites(j, emission, position, intensity));
      var name := LightUniform(i, field);
      (name in s <==> name in store) && (name in store ==> s[name] == store[name])
  {
    LightUniformInjective(i, j, field, "emission");
    LightUniformInjective(i, j, field, "pos");
    LightUniformInjective(i, j, field, "I");
    LightUniforms(store, declared, j, emission, position, intensity, LightUniform(i, field));
  }

  // ------------------------------------------------------------------ PointLight

  class PointLight {
    const owner: NodeId
    /** The material shared with the renderer of the light's mesh; null once moved from. */
    var mat: Material?

    constructor (owner: NodeId, mat: Material?)
      ensures this.owner == owner && this.mat == mat
    {
      this.owner := owner;
      this.mat := mat;
    }

    /** The move constructor: the new light takes the material and the old one is left with none. */
    constructor MoveFrom(other: PointLight)
      modifies other
      ensures owner == other.owner && mat == old(other.mat) && other.mat == null
    {
      owner := other.owner;
      mat := other.mat;
      new;
      other.mat := null;
    }

    function Emission(): Vec3
      requires mat != null
      reads this, mat
    {
      mat.emission
    }

    function Intensity(): real
      requires mat != null
      reads this, mat
    {
      mat.intensity
    }

    /** position: the global position of the owner's transform. */
    function Position(scene: Hierarchy, rot: Rotation): Vec3
      requires scene.Valid() && owner in scene.transforms
      reads scene
    {
      GlobalPosition(scene.depth, scene.transforms, owner, rot)
    }

    /** Apply: the light's emission, global position and intensity, written to the index-th entry of
        the shader's light array. */
    method Apply(shader: Shader, index: int, scene: Hierarchy, rot: Rotation)
      requires shader.Valid() && mat != null && scene.Valid() && owner in scene.transforms
      modifies shader
      ensures shader.Valid()
      ensures shader.uniforms ==
        WrittenAll(old(shader.uniforms), shader.declared, LightWrites(index, Emission(), Position(scene, rot), Intensity()))
      ensures shader.declared == old(shader.declared) && shader.vpMatrix == old(shader.vpMatrix)
      ensures shader.units == old(shader.units) && shader.program == old(shader.program)
    {
      ghost var u0, ws := shader.uniforms, LightWrites(index, Emission(), Position(scene, rot), Intensity());
      var loc := LightUniform(index, "emission");
      shader.Set(loc, Vector3(mat.emission));
      assert ws[..1][..0] == [];
      assert shader.uniforms == WrittenAll(u0, shader.declared, ws[..1]);
      loc := LightUniform(index, "pos");
      shader.Set(loc, Vector3(GlobalPosition(scene.depth, scene.transforms, owner, rot)));
      assert ws[..2][..1] == ws[..1];
      assert shader.uniforms == WrittenAll(u0, shader.declared, ws[..2]);
      loc := LightUniform(index, "I");
      shader.Set(loc, Float(mat.intensity));
      assert ws[..3][..2] == ws[..2] && ws[..3] == ws;
    }

    /** SetEmission writes through to the shared material, clamped like every emission. */
    method SetEmission(v: Vec3)
      requires mat != null
      modifies mat
      ensures mat.Data() == old(mat.Data()).(emission := ClampVec01(v))
    {
      mat.SetEmission(v);
    }

    /** SetIntensity writes through to the shared material. */
    method SetIntensity(i: real)
      requires mat != null
      modifies mat
      ensures mat.Data() == old(mat.Data()).(intensity := i)
    {
      mat.SetIntensity(i);
    }
  }

  // ------------------------------------------------------------------ Renderer

  class Renderer {
    const owner: NodeId
    /** Null only once moved from. */
    var material: Material?
    var diffuseTexture: Texture2D?
    var normalMap: Texture2D?
    var layer: string

    /** The constructor: a missing diffuse texture becomes the "default" placeholder, a missing
        material a new copy of the "default" material, and a missing normal map the "default_normal"
        placeholder, each created on first use. */
    constructor (owner: NodeId, rm: ResourceManager, diffTex: Texture2D? := null, mat: Material? := null,
                 layer: string := "Background", normMap: Texture2D? := null)
      modifies rm
      ensures this.owner == owner && this.layer == layer && material != null
      ensures diffTex != null ==> diffuseTexture == diffTex
      ensures diffTex == null && old(rm.HasTexture("default")) ==> diffuseTexture == old(rm.textures["default"])
      ensures diffTex == null && !old(rm.HasTexture("default")) ==>
        diffuseTexture != null && fresh(diffuseTexture) && Placeholder(diffuseTexture, WHITE_PIXEL)
      ensures mat != null ==> material == mat
      ensures mat == null ==> fresh(material)
      ensures mat == null && old(rm.HasMaterial("default")) ==> material.Data() == old(rm.materials["default"].Data())
      ensures mat == null && !old(rm.HasMaterial("default")) ==> material.Data() == DEFAULT_MATERIAL
      ensures normMap != null ==> normalMap == normMap
      ensures normMap == null && old(rm.HasTexture("default_normal")) ==> normalMap == old(rm.textures["default_normal"])
      ensures normMap == null && !old(rm.HasTexture("default_normal")) ==>
        normalMap != null && fresh(normalMap) && Placeholder(normalMap, FLAT_NORMAL_PIXEL)
    {
      this.owner := owner;
      this.layer := layer;
      var diffuse := diffTex;
      if diffTex == null {
        assert rm.PlaceholderDue("default") == 0 ==> rm.textures != map[];
        diffuse := rm.GetTexture("default");
      }
      var m := mat;
      if mat == null {
        m := rm.GetMaterialInstance("default");
      }
      var normal := normMap;
      if normMap == null {
        assert rm.PlaceholderDue("default_normal") == 0 ==> rm.textures != map[];
        normal := rm.GetTexture("default_normal");
      }
      diffuseTexture, material, normalMap := diffuse, m, normal;
    }

    /** The move constructor swaps the diffuse texture, the material and the layer with a fresh
        renderer's empty ones; the normal map is not moved, so both keep theirs (the new one none). */
    constructor MoveFrom(other: Renderer)
      modifies other
      ensures owner == other.owner
      ensures diffuseTexture == old(other.diffuseTexture) && material == old(other.material) && layer == old(other.layer)
      ensures normalMap == null
      ensures other.diffuseTexture == null && other.material == null && other.layer == ""
      ensures other.normalMap == old(other.normalMap)
    {
      owner := other.owner;
      diffuseTexture := other.diffuseTexture;
      material := other.material;
      layer := other.layer;
      normalMap := null;
      new;
      other.diffuseTexture := null;
      other.material := null;
      other.layer := "";
    }

    function GetLayer(): string
      reads this
    {
      layer
    }

    method SetDiffuseTexture(t: Texture2D?)
      modifies this
      ensures diffuseTexture == t && normalMap == old(normalMap) && material == old(material) && layer == old(layer)
    {
      diffuseTexture := t;
    }

    method SetNormalMap(t: Texture2D?)
      modifies this
      ensures normalMap == t && diffuseTexture == old(diffuseTexture) && material == old(material) && layer == old(layer)
    {
      normalMap := t;
    }

    /** ApplyData: the material's uniforms, then the diffuse texture on the DIFFUSE unit and the normal
        map on the NORMAL unit, each only when present and the unit exists; no other unit changes. */
    method ApplyData(shader: Shader, maxUnits: int)
      requires shader.Valid() && material != null
      modifies shader
      ensures shader.Valid()
      ensures shader.uniforms == WrittenAll(old(shader.uniforms), shader.declared, MatWrites(material.Data()))
      ensures diffuseTexture != null && AcceptsUnit(DIFFUSE, maxUnits) ==>
        DIFFUSE in shader.units && shader.units[DIFFUSE] == Texture2DBinding(diffuseTexture.textureID)
      ensures normalMap != null && AcceptsUnit(NORMAL, maxUnits) ==>
        NORMAL in shader.units && shader.units[NORMAL] == Texture2DBinding(normalMap.textureID)
      ensures forall u :: u != DIFFUSE && u != NORMAL ==>
        (u in shader.units <==> u in old(shader.units)) && (u in shader.units ==> shader.units[u] == old(shader.units)[u])
      ensures !(diffuseTexture != null && AcceptsUnit(DIFFUSE, maxUnits)) ==>
        (DIFFUSE in shader.units <==> DIFFUSE in old(shader.units))
        && (DIFFUSE in shader.units ==> shader.units[DIFFUSE] == old(shader.units)[DIFFUSE])
      ensures !(normalMap != null && AcceptsUnit(NORMAL, maxUnits)) ==>
        (NORMAL in shader.units <==> NORMAL in old(shader.units))
        && (NORMAL in shader.units ==> shader.units[NORMAL] == old(shader.units)[NORMAL])
      ensures shader.declared == old(shader.declared) && shader.vpMatrix == old(shader.vpMatrix)
      ensures shader.program == old(shader.program)
    {
      material.ApplyMatData(shader);
      if diffuseTexture != null {
        shader.ApplyTexture2D(diffuseTexture.textureID, DIFFUSE, maxUnits);
      }
      if normalMap != null {
        shader.ApplyTexture2D(normalMap.textureID, NORMAL, maxUnits);
      }
    }
  }
}
