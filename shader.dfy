/** A shader program seen as a uniform store. The program declares a fixed set of uniforms when it is
    linked; a set* call looks the name up and writes only when the program declares it (location
    -1 otherwise), so writes to undeclared names change nothing. Apply captures the camera's
    view-projection matrix and assigns the fixed sampler slots. The texture units a program binds
    textures to are global OpenGL state; the model keeps them on the shader that binds them. */
module Shading {
  import opened Wrappers
  import opened Vectors
  import opened Matrices

  /** UniformSamplerIndices: the texture unit of each sampler. */
  const DIFFUSE: int := 0
  const NORMAL: int := 1
  const CUBEMAP: int := 2
  const DEPTH_BACK_FACE: int := 3
  const DEPTH_FRONT_FACE: int := 4

  datatype Vec4 = Vec4(x: real, y: real, z: real, w: real)

  /** A uniform value, one constructor per set* overload. */
  datatype Uniform =
    | Mat4(m: Matrix)
    | Mat3(m: Matrix)
    | Vector4(v4: Vec4)
    | Vector3(v: Vec3)
    | Int(i: int)
    | Float(f: real)

  /** One set* call: the uniform's name and the value written. */
  datatype Write = Write(name: string, value: Uniform)

  /** What a texture unit holds. */
  datatype Binding = Texture2DBinding(texture: int) | CubemapBinding(cubemap: int)

  /** The store after one set* call: the write lands only when the program declares the name. */
  function Written(store: map<string, Uniform>, declared: set<string>, w: Write): map<string, Uniform>
  {
    if w.name in declared then store[w.name := w.value] else store
  }

  /** The store after a sequence of set* calls, in order. */
  function WrittenAll(store: map<string, Uniform>, declared: set<string>, ws: seq<Write>): map<string, Uniform>
  {
    if ws == [] then store else Written(WrittenAll(store, declared, ws[..|ws| - 1]), declared, ws[|ws| - 1])
  }

  /** The value of the last write to name, if any. */
  function LastWrite(ws: seq<Write>, name: string): Option<Uniform>
  {
    if ws == [] then None
    else if ws[|ws| - 1].name == name then Some(ws[|ws| - 1].value)
    else LastWrite(ws[..|ws| - 1], name)
  }

  /** After a sequence of writes, a declared name holds the last value written to it, and every
      other name keeps what it held; nothing outside the declared names ever appears. */
  lemma {:induction false} WrittenAllLookup(store: map<string, Uniform>, declared: set<string>, ws: seq<Write>, name: string)
    ensures var s := WrittenAll(store, declared, ws);
      && (name in s <==> name in store || (name in declared && LastWrite(ws, name).Some?))
      && (name in declared && LastWrite(ws, name).Some? ==> s[name] == LastWrite(ws, name).value)
      && (!(name in declared && LastWrite(ws, name).Some?) && name in store ==> s[name] == store[name])
    decreases |ws|
  {
    if ws != [] {
      WrittenAllLookup(store, declared, ws[..|ws| - 1], name);
    }
  }

  /** Writes never add an undeclared name. */
  lemma {:induction false} WrittenAllKeys(store: map<string, Uniform>, declared: set<string>, ws: seq<Write>)
    ensures WrittenAll(store, declared, ws).Keys <= store.Keys + declared
    decreases |ws|
  {
    if ws != [] {
      WrittenAllKeys(store, declared, ws[..|ws| - 1]);
    }
  }

  /** Two runs of writes, one after the other, are the run of their concatenation. */
  lemma {:induction false} WrittenAllAppend(store: map<string, Uniform>, declared: set<string>, a: seq<Write>, b: seq<Write>)
    ensures WrittenAll(store, declared, a + b) == WrittenAll(WrittenAll(store, declared, a), declared, b)
    decreases |b|
  {
    if b == [] {
      assert a + b == a;
    } else {
      assert (a + b)[..|a + b| - 1] == a + b[..|b| - 1];
      WrittenAllAppend(store, declared, a, b[..|b| - 1]);
    }
  }

  /** The names a sequence of writes touches. */
  function Names(ws: seq<Write>): set<string>
  {
    set i | 0 <= i < |ws| :: ws[i].name
  }

  /** A name no write touches keeps its value (or its absence). */
  lemma {:induction false} LastWriteAbsent(ws: seq<Write>, name: string)
    ensures name !in Names(ws) <==> LastWrite(ws, name).None?
    decreases |ws|
  {
    if ws != [] {
      var init := ws[..|ws| - 1];
      LastWriteAbsent(init, name);
      assert Names(ws) == Names(init) + {ws[|ws| - 1].name} by {
        forall n | n in Names(ws) ensures n in Names(init) + {ws[|ws| - 1].name} {
          var i :| 0 <= i < |ws| && ws[i].name == n;
          if i < |init| {
            assert init[i] == ws[i];
          }
        }
        forall n | n in Names(init) ensures n in Names(ws) {
          var i :| 0 <= i < |init| && init[i].name == n;
          assert ws[i] == init[i];
        }
      }
    }
  }

  /** A write that no later write overrides is the one a name ends with. */
  lemma {:induction false} LastWriteAt(ws: seq<Write>, i: nat)
    requires i < |ws| && forall j :: i < j < |ws| ==> ws[j].name != ws[i].name
    ensures LastWrite(ws, ws[i].name) == Some(ws[i].value)
    decreases |ws|
  {
    if i < |ws| - 1 {
      var init := ws[..|ws| - 1];
      assert init[i] == ws[i];
      LastWriteAt(init, i);
    }
  }

  /** The writes Apply makes after capturing the camera: mvp (the view-projection itself), camPos,
      and the five sampler slots. */
  function ApplyWrites(vp: Matrix, camPos: Vec3): seq<Write>
  {
    [Write("mvp", Mat4(vp)), Write("camPos", Vector3(camPos)),
     Write("image", Int(DIFFUSE)), Write("nMap", Int(NORMAL)), Write("cubeMap", Int(CUBEMAP)),
     Write("backDepthMap", Int(DEPTH_BACK_FACE)), Write("frontDepthMap", Int(DEPTH_FRONT_FACE))]
  }

  /** The value Apply leaves in a uniform it writes. */
  function ApplyValue(vp: Matrix, camPos: Vec3, name: string): Option<Uniform>
  {
    if name == "frontDepthMap" then Some(Int(DEPTH_FRONT_FACE))
    else if name == "backDepthMap" then Some(Int(DEPTH_BACK_FACE))
    else if name == "cubeMap" then Some(Int(CUBEMAP))
    else if name == "nMap" then Some(Int(NORMAL))
    else if name == "image" then Some(Int(DIFFUSE))
    else if name == "camPos" then Some(Vector3(camPos))
    else if name == "mvp" then Some(Mat4(vp))
    else None
  }

  /** The last write to a name after one more write. */
  lemma LastWriteSnoc(ws: seq<Write>, w: Write, name: string)
    ensures LastWrite(ws + [w], name) == if w.name == name then Some(w.value) else LastWrite(ws, name)
  {
    assert (ws + [w])[..|ws + [w]| - 1] == ws;
  }

  lemma LastApplyWrite(vp: Matrix, camPos: Vec3, name: string)
    ensures LastWrite(ApplyWrites(vp, camPos), name) == ApplyValue(vp, camPos, name)
  {
    var w := ApplyWrites(vp, camPos);
    var p := [w[0], w[1], w[2], w[3], w[4], w[5]];
    assert w == p + [w[6]];
    LastWriteSnoc(p, w[6], name);
    assert p == [w[0], w[1], w[2], w[3], w[4]] + [w[5]];
    LastWriteSnoc([w[0], w[1], w[2], w[3], w[4]], w[5], name);
    assert [w[0], w[1], w[2], w[3], w[4]] == [w[0], w[1], w[2], w[3]] + [w[4]];
    LastWriteSnoc([w[0], w[1], w[2], w[3]], w[4], name);
    assert [w[0], w[1], w[2], w[3]] == [w[0], w[1], w[2]] + [w[3]];
    LastWriteSnoc([w[0], w[1], w[2]], w[3], name);
    assert [w[0], w[1], w[2]] == [w[0], w[1]] + [w[2]];
    LastWriteSnoc([w[0], w[1]], w[2], name);
    assert [w[0], w[1]] == [w[0]] + [w[1]];
    LastWriteSnoc([w[0]], w[1], name);
    assert [w[0]] == [] + [w[0]];
    LastWriteSnoc([], w[0], name);
  }

  /** After Apply, each declared sampler holds its slot (image 0, nMap 1, cubeMap 2, backDepthMap 3,
      frontDepthMap 4), a declared mvp holds the view-projection, a declared camPos the camera
      position, and every other uniform keeps its value. */
  lemma ApplyUniforms(store: map<string, Uniform>, declared: set<string>, vp: Matrix, camPos: Vec3, name: string)
    ensures var s := WrittenAll(store, declared, ApplyWrites(vp, camPos));
      && (name in declared && ApplyValue(vp, camPos, name).Some? ==> name in s && s[name] == ApplyValue(vp, camPos, name).value)
      && (name !in declared || ApplyValue(vp, camPos, name).None? ==>
            (name in s <==> name in store) && (name in store ==> name in s && s[name] == store[name]))
  {
    WrittenAllLookup(store, declared, ApplyWrites(vp, camPos), name);
    LastApplyWrite(vp, camPos, name);
  }

  /** ApplyTexture2D's guard as written: it refuses a unit only when it is greater than the number of
      combined texture units. */
  predicate AcceptsUnitAsWritten(unit: int, maxUnits: int)
  {
    !(unit > maxUnits)
  }

  /** The guard accepts the unit numbered maxUnits, one past the last of the units 0 .. maxUnits - 1. */
  lemma AcceptsOnePastLastUnit(maxUnits: nat)
    ensures AcceptsUnitAsWritten(maxUnits, maxUnits)
    ensures !(0 <= maxUnits < maxUnits)
  {
  }

  /** The guard as intended: a unit is used only when it is one of 0 .. maxUnits - 1. */
  predicate AcceptsUnit(unit: int, maxUnits: int)
  {
    !(unit >= maxUnits)
  }

  /** The corrected guard accepts exactly the existing units at or above 0, and agrees with the guard
      as written everywhere but at maxUnits. */
  lemma AcceptsUnitExactly(unit: int, maxUnits: int)
    requires unit >= 0
    ensures AcceptsUnit(unit, maxUnits) <==> 0 <= unit < maxUnits
    ensures unit != maxUnits ==> (AcceptsUnit(unit, maxUnits) <==> AcceptsUnitAsWritten(unit, maxUnits))
  {
  }

  class Shader {
    var program: int
    var vertexShader: int
    var fragmentShader: int
    var name: string
    /** The uniforms the linked program declares (those with a location other than -1). */
    var declared: set<string>
    /** The current value of each uniform that has been written. */
    var uniforms: map<string, Uniform>
    /** The view-projection matrix captured by the last Apply. */
    var vpMatrix: Matrix
    /** What each texture unit holds. */
    var units: map<int, Binding>

    ghost predicate Valid()
      reads this
    {
      uniforms.Keys <= declared
    }

    /** A program linked from the two compiled stages; linking and its log are outside the model, and
        the set of uniforms the program declares is what linking produced. */
    constructor (vertexShaderProgram: int, fragmentShaderProgram: int, name: string, linked: int, declaredUniforms: set<string>)
      ensures Valid()
      ensures program == linked && vertexShader == vertexShaderProgram && fragmentShader == fragmentShaderProgram
      ensures this.name == name && declared == declaredUniforms && uniforms == map[]
      ensures vpMatrix == Identity && units == map[]
    {
      program := linked;
      vertexShader := vertexShaderProgram;
      fragmentShader := fragmentShaderProgram;
      this.name := name;
      declared := declaredUniforms;
      uniforms := map[];
      vpMatrix := Identity;
      units := map[];
    }

    /** The move constructor: the three handles are swapped with a fresh shader's zeros, so the new
        shader owns the program (and with it the program's uniforms) and the old one is left with
        none. The name is not moved and the captured matrix starts again at the identity. */
    constructor MoveFrom(other: Shader)
      requires other.Valid()
      modifies other
      ensures Valid() && other.Valid()
      ensures program == old(other.program) && vertexShader == old(other.vertexShader)
      ensures fragmentShader == old(other.fragmentShader)
      ensures declared == old(other.declared) && uniforms == old(other.uniforms)
      ensures name == "" && vpMatrix == Identity && units == map[]
      ensures other.program == 0 && other.vertexShader == 0 && other.fragmentShader == 0
      ensures other.declared == {} && other.uniforms == map[]
      ensures other.name == old(other.name) && other.vpMatrix == old(other.vpMatrix) && other.units == old(other.units)
    {
      program := other.program;
      vertexShader := other.vertexShader;
      fragmentShader := other.fragmentShader;
      declared := other.declared;
      uniforms := other.uniforms;
      name := "";
      vpMatrix := Identity;
      units := map[];
      new;
      other.program := 0;
      other.vertexShader := 0;
      other.fragmentShader := 0;
      other.declared := {};
      other.uniforms := map[];
    }

    /** setMatrix, setVector, setInt and setFloat: the uniform changes only when the program declares
        it. */
    method Set(uniformName: string, value: Uniform)
      requires Valid()
      modifies this
      ensures Valid()
      ensures uniforms == Written(old(uniforms), declared, Write(uniformName, value))
      ensures uniformName in declared ==> uniforms[uniformName] == value
      ensures uniformName !in declared ==> uniforms == old(uniforms)
      ensures declared == old(declared) && vpMatrix == old(vpMatrix) && units == old(units)
      ensures program == old(program) && name == old(name)
    {
      if uniformName in declared {
        uniforms := uniforms[uniformName := value];
      }
    }

    /** A sequence of set* calls. */
    method SetAll(ws: seq<Write>)
      requires Valid()
      modifies this
      ensures Valid()
      ensures uniforms == WrittenAll(old(uniforms), declared, ws)
      ensures declared == old(declared) && vpMatrix == old(vpMatrix) && units == old(units)
      ensures program == old(program) && name == old(name)
    {
      var i := 0;
      while i < |ws|
        invariant 0 <= i <= |ws| && Valid()
        invariant uniforms == WrittenAll(old(uniforms), declared, ws[..i])
        invariant declared == old(declared) && vpMatrix == old(vpMatrix) && units == old(units)
        invariant program == old(program) && name == old(name)
      {
        assert ws[..i + 1][..i] == ws[..i];
        Set(ws[i].name, ws[i].value);
        i := i + 1;
      }
      assert ws[..i] == ws;
    }

    /** Apply: makes the program current, captures the camera's view-projection matrix, writes mvp and
        camPos when the program declares them, and assigns the sampler slots. */
    method Apply(cameraVP: Matrix, cameraPosition: Vec3)
      requires Valid()
      modifies this
      ensures Valid()
      ensures vpMatrix == cameraVP
      ensures uniforms == WrittenAll(old(uniforms), declared, ApplyWrites(cameraVP, cameraPosition))
      ensures forall m :: CalculateMVPMatrix(m) == Product(cameraVP, m)
      ensures declared == old(declared) && units == old(units) && program == old(program) && name == old(name)
    {
      vpMatrix := cameraVP;
      SetAll(ApplyWrites(cameraVP, cameraPosition));
    }

    /** CalculateMVPMatrix: the model matrix under the view-projection of the last Apply. */
    function CalculateMVPMatrix(model: Matrix): Matrix
      reads this
    {
      Product(vpMatrix, model)
    }

    /** ApplyTexture2D, with the unit guard corrected: the texture is bound to the unit only when the
        unit exists. */
    method ApplyTexture2D(textureId: int, unit: int, maxUnits: int)
      modifies this
      ensures units == if AcceptsUnit(unit, maxUnits) then old(units)[unit := Texture2DBinding(textureId)] else old(units)
      ensures declared == old(declared) && uniforms == old(uniforms) && vpMatrix == old(vpMatrix)
      ensures program == old(program) && name == old(name)
    {
      if unit >= maxUnits {
        return;
      }
      units := units[unit := Texture2DBinding(textureId)];
    }

    /** ApplyCubemap: the cubemap always goes to the CUBEMAP unit. */
    method ApplyCubemap(cubemapId: int)
      modifies this
      ensures units == old(units)[CUBEMAP := CubemapBinding(cubemapId)]
      ensures declared == old(declared) && uniforms == old(uniforms) && vpMatrix == old(vpMatrix)
      ensures program == old(program) && name == old(name)
    {
      units := units[CUBEMAP := CubemapBinding(cubemapId)];
    }
  }
}
