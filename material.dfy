/** Materials: the surface parameters a renderer hands to the active shader. The setters clamp colours
    and factors to [0, 1]; the constructor, the colour overload of SetDiffuse, SetTiling and
    SetIntensity store their arguments as given. */
module Materials {
  import opened Vectors
  import opened Shading

  /** A colour with alpha; only its red, green and blue channels reach a material. */
  datatype Color = Color(r: real, g: real, b: real, a: real)

  /** The value of a material's fields, used to compare and copy materials. */
  datatype MaterialData = MaterialData(
    name: string, diffuse: Vec3, emission: Vec3, opacity: real, metallic: real, roughness: real,
    tiling: real, intensity: real)

  predicate InUnit(v: real)
  {
    0.0 <= v <= 1.0
  }

  /** The shininess ApplyMatData derives: metallic surfaces shine, rough ones less so. */
  function Shininess(metallic: real, roughness: real): (s: real)
    ensures InUnit(metallic) && InUnit(roughness) ==> InUnit(s)
    ensures InUnit(roughness) && 0.0 <= metallic ==> s <= metallic
    ensures roughness == 1.0 ==> s == 0.0
  {
    assert InUnit(roughness) && 0.0 <= metallic ==> 0.0 <= metallic * (1.0 - roughness) <= metallic by {
      if InUnit(roughness) && 0.0 <= metallic {
        MulNonNegative(metallic, 1.0 - roughness);
        MulNonNegative(metallic, roughness);
        assert metallic * (1.0 - roughness) == metallic - metallic * roughness;
      }
    }
    metallic * (1.0 - roughness)
  }

  lemma MulNonNegative(a: real, b: real)
    requires 0.0 <= a && 0.0 <= b
    ensures 0.0 <= a * b
  {
  }

  /** The uniform writes of ApplyMatData, in order. */
  function MatWrites(d: MaterialData): seq<Write>
  {
    [Write("diffuse", Vector3(d.diffuse)), Write("alpha", Float(d.opacity)),
     Write("tiling", Float(d.tiling)), Write("shiny", Float(Shininess(d.metallic, d.roughness)))]
  }

  /** ApplyMatData leaves diffuse, alpha, tiling and shiny holding the material's diffuse colour,
      opacity, tiling and shininess, where the program declares them, and no other uniform (emission
      and intensity in particular) changes. */
  lemma MatDataUniforms(store: map<string, Uniform>, declared: set<string>, d: MaterialData, name: string)
    ensures var s := WrittenAll(store, declared, MatWrites(d));
      && (name in declared && name == "diffuse" ==> name in s && s[name] == Vector3(d.diffuse))
      && (name in declared && name == "alpha" ==> name in s && s[name] == Float(d.opacity))
      && (name in declared && name == "tiling" ==> name in s && s[name] == Float(d.tiling))
      && (name in declared && name == "shiny" ==> name in s && s[name] == Float(d.metallic * (1.0 - d.roughness)))
      && (name !in {"diffuse", "alpha", "tiling", "shiny"} ==>
            (name in s <==> name in store) && (name in store ==> name in s && s[name] == store[name]))
  {
    var ws := MatWrites(d);
    WrittenAllLookup(store, declared, ws, name);
    if name == "diffuse" {
      LastWriteAt(ws, 0);
    } else if name == "alpha" {
      LastWriteAt(ws, 1);
    } else if name == "tiling" {
      LastWriteAt(ws, 2);
    } else if name == "shiny" {
      LastWriteAt(ws, 3);
    } else {
      assert name !in Names(ws);
      LastWriteAbsent(ws, name);
    }
  }

  class Material {
    var name: string
    var diffuse: Vec3
    var emission: Vec3
    var opacity: real
    var metallic: real
    var roughness: real
    /** The texture's tessellation factor. */
    var tiling: real
    var intensity: real

    function Data(): MaterialData
      reads this
    {
      MaterialData(name, diffuse, emission, opacity, metallic, roughness, tiling, intensity)
    }

    /** The constructor stores its arguments unclamped; tiling starts at 1 and intensity at 0. */
    constructor (name: string := "Material", diffuse: Vec3 := One3, emission: Vec3 := Zero3,
                 opacity: real := 1.0, metallic: real := 0.0, roughness: real := 0.5)
      ensures Data() == MaterialData(name, diffuse, emission, opacity, metallic, roughness, 1.0, 0.0)
    {
      this.name := name;
      this.diffuse := diffuse;
      this.emission := emission;
      this.opacity := opacity;
      this.metallic := metallic;
      this.roughness := roughness;
      tiling := 1.0;
      intensity := 0.0;
    }

    /** The copy constructor. */
    method Copy() returns (m: Material)
      ensures fresh(m) && m.Data() == Data()
    {
      m := new Material(name, diffuse, emission, opacity, metallic, roughness);
      m.tiling := tiling;
      m.intensity := intensity;
    }

    method SetDiffuse(val: Vec3)
      modifies this
      ensures Data() == old(Data()).(diffuse := ClampVec01(val))
    {
      diffuse := Vec3(Clamp(val.x, 0.0, 1.0), Clamp(val.y, 0.0, 1.0), Clamp(val.z, 0.0, 1.0));
    }

    /** The Color overload: red, green and blue are stored as they are. */
    method SetDiffuseColor(val: Color)
      modifies this
      ensures Data() == old(Data()).(diffuse := Vec3(val.r, val.g, val.b))
    {
      diffuse := Vec3(val.r, val.g, val.b);
    }

    method SetEmission(val: Vec3)
      modifies this
      ensures Data() == old(Data()).(emission := ClampVec01(val))
    {
      emission := Vec3(Clamp(val.x, 0.0, 1.0), Clamp(val.y, 0.0, 1.0), Clamp(val.z, 0.0, 1.0));
    }

    method SetOpacity(val: real)
      modifies this
      ensures Data() == old(Data()).(opacity := Clamp01(val))
    {
      opacity := Clamp(val, 0.0, 1.0);
    }

    method SetMetallic(val: real)
      modifies this
      ensures Data() == old(Data()).(metallic := Clamp01(val))
    {
      metallic := Clamp(val, 0.0, 1.0);
    }

    method SetRoughness(val: real)
      modifies this
      ensures Data() == old(Data()).(roughness := Clamp01(val))
    {
      roughness := Clamp(val, 0.0, 1.0);
    }

    method SetTiling(val: real)
      modifies this
      ensures Data() == old(Data()).(tiling := val)
    {
      tiling := val;
    }

    method SetIntensity(val: real)
      modifies this
      ensures Data() == old(Data()).(intensity := val)
    {
      intensity := val;
    }

    /** ApplyMatData: the four uniform writes, in order, into the shader's store. */
    method ApplyMatData(shader: Shader)
      requires shader.Valid()
      modifies shader
      ensures shader.Valid()
      ensures shader.uniforms == WrittenAll(old(shader.uniforms), shader.declared, MatWrites(Data()))
      ensures shader.declared == old(shader.declared) && shader.vpMatrix == old(shader.vpMatrix)
      ensures shader.units == old(shader.units) && shader.program == old(shader.program)
    {
      ghost var u0, ws := shader.uniforms, MatWrites(Data());
      shader.Set("diffuse", Vector3(diffuse));
      assert ws[..1][..0] == [];
      assert shader.uniforms == WrittenAll(u0, shader.declared, ws[..1]);
      shader.Set("alpha", Float(opacity));
      assert ws[..2][..1] == ws[..1];
      assert shader.uniforms == WrittenAll(u0, shader.declared, ws[..2]);
      shader.Set("tiling", Float(tiling));
      assert ws[..3][..2] == ws[..2];
      assert shader.uniforms == WrittenAll(u0, shader.declared, ws[..3]);
      shader.Set("shiny", Float(Shininess(metallic, roughness)));
      assert ws[..4][..3] == ws[..3] && ws[..4] == ws;
      assert shader.uniforms == WrittenAll(u0, shader.declared, ws[..4]);
    }
  }

  /** The clamping setters reach a fixed point: setting the same value twice stores what setting it
      once does, and a value already in range is stored unchanged. */
  lemma ClampingSettersIdempotent(v: Vec3, x: real)
    ensures ClampVec01(ClampVec01(v)) == ClampVec01(v)
    ensures InUnitCube(v) ==> ClampVec01(v) == v
    ensures Clamp01(Clamp01(x)) == Clamp01(x)
    ensures InUnit(x) ==> Clamp01(x) == x
  {
    ClampVec01Idempotent(v);
  }

  /** A material whose opacity, metallic and roughness went through their setters has its shininess
      in [0, 1]. */
  lemma SetterShininess(d: MaterialData, m: real, r: real)
    ensures InUnit(Shininess(d.(metallic := Clamp01(m), roughness := Clamp01(r)).metallic,
                             d.(metallic := Clamp01(m), roughness := Clamp01(r)).roughness))
  {
  }
}
