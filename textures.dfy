/** GPU textures as the engine keeps them: a 2D texture records the size of the image it was
    generated from and its sampling parameters; a cubemap receives its six faces one by one, the first
    face fixing the dimensions every later face must match. The OpenGL calls themselves are left out:
    a texture's handle is a constructor parameter, and an uploaded image is recorded as data. */
module Textures {
  import opened Wrappers

  datatype PixelFormat = RGB | RGBA
  datatype Wrap = Repeat | ClampToEdge
  /** The OpenGL filters the engine selects. */
  datatype GLFilter = Nearest | Linear | NearestMipmapNearest | LinearMipmapLinear
  /** The engine's FilterModes enumeration. */
  datatype FilterMode = NearestMode | LinearMode | MipmapNearestMode | MipmapLinearMode

  /** GL_TEXTURE_CUBE_MAP_POSITIVE_X; the other five faces follow it in the order +X, -X, +Y, -Y,
      +Z, -Z. */
  const CUBE_MAP_POSITIVE_X: int := 0x8515
  const CUBE_MAP_NEGATIVE_Z: int := 0x851A

  /** The minification filter SetFilteringMode selects. */
  function MinFilterFor(mode: FilterMode): GLFilter
  {
    if mode == NearestMode then Nearest
    else if mode == LinearMode then Linear
    else if mode == MipmapNearestMode then NearestMipmapNearest
    else LinearMipmapLinear
  }

  /** The magnification filter SetFilteringMode selects (magnification has no mipmaps). */
  function MagFilterFor(mode: FilterMode): GLFilter
  {
    if mode == NearestMode then Nearest else Linear
  }

  predicate IsMipmapFilter(f: GLFilter)
  {
    f == NearestMipmapNearest || f == LinearMipmapLinear
  }

  /** The two filter tables agree: distinct modes give distinct minification filters, the
      magnification filter is never a mipmap filter, it is nearest exactly when the minification
      filter is, and the minification filter uses mipmaps exactly for the mipmap modes. */
  lemma FilterTables(m: FilterMode, n: FilterMode)
    ensures MinFilterFor(m) == MinFilterFor(n) ==> m == n
    ensures !IsMipmapFilter(MagFilterFor(m))
    ensures MagFilterFor(m) == Nearest <==> MinFilterFor(m) == Nearest
    ensures IsMipmapFilter(MinFilterFor(m)) <==> m == MipmapNearestMode || m == MipmapLinearMode
  {
  }

  /** The OpenGL target of the cubemap face with the given index. */
  function FaceTarget(index: nat): (t: int)
    ensures t >= CUBE_MAP_POSITIVE_X
    ensures index < 6 ==> t <= CUBE_MAP_NEGATIVE_Z
  {
    CUBE_MAP_POSITIVE_X + index
  }

  /** Different face indices write different targets, and every target from +X to -Z is the target
      of one of the six faces. */
  lemma FaceTargets(i: nat, j: nat, t: int)
    ensures FaceTarget(i) == FaceTarget(j) ==> i == j
    ensures CUBE_MAP_POSITIVE_X <= t <= CUBE_MAP_NEGATIVE_Z ==> exists k: nat :: k < 6 && FaceTarget(k) == t
  {
    if CUBE_MAP_POSITIVE_X <= t <= CUBE_MAP_NEGATIVE_Z {
      var k: nat := t - CUBE_MAP_POSITIVE_X;
      assert FaceTarget(k) == t;
    }
  }

  class Texture2D {
    const textureID: int
    var width: int
    var height: int
    var internalFormat: PixelFormat
    var imageFormat: PixelFormat
    var wrapS: Wrap
    var wrapT: Wrap
    var minFilter: GLFilter
    var magFilter: GLFilter
    /** The image last uploaded by Generate, if any. */
    var image: Option<seq<bv8>>

    /** A new texture is 0 by 0, RGB, repeating, with trilinear minification and linear
        magnification. */
    constructor (id: int)
      ensures textureID == id && width == 0 && height == 0
      ensures internalFormat == RGB && imageFormat == RGB && wrapS == Repeat && wrapT == Repeat
      ensures minFilter == LinearMipmapLinear && magFilter == Linear && image == None
    {
      textureID := id;
      width, height := 0, 0;
      internalFormat, imageFormat := RGB, RGB;
      wrapS, wrapT := Repeat, Repeat;
      minFilter, magFilter := LinearMipmapLinear, Linear;
      image := None;
    }

    /** Generate records the image's dimensions and uploads it with the current parameters. */
    method Generate(w: nat, h: nat, data: seq<bv8>)
      modifies this
      ensures width == w && height == h && image == Some(data)
      ensures internalFormat == old(internalFormat) && imageFormat == old(imageFormat)
      ensures wrapS == old(wrapS) && wrapT == old(wrapT)
      ensures minFilter == old(minFilter) && magFilter == old(magFilter)
    {
      width, height := w, h;
      image := Some(data);
    }

    method SetFilteringMode(mode: FilterMode)
      modifies this
      ensures minFilter == MinFilterFor(mode) && magFilter == MagFilterFor(mode)
      ensures width == old(width) && height == old(height) && image == old(image)
      ensures internalFormat == old(internalFormat) && imageFormat == old(imageFormat)
      ensures wrapS == old(wrapS) && wrapT == old(wrapT)
    {
      minFilter := if mode == NearestMode then Nearest
                   else if mode == LinearMode then Linear
                   else if mode == MipmapNearestMode then NearestMipmapNearest
                   else LinearMipmapLinear;
      magFilter := if mode == NearestMode then Nearest else Linear;
    }
  }

  /** One dimension after a face is generated: unset (not positive) takes the face's value, a set
      one must match it. None is the runtime error the engine raises on a mismatch. */
  function NextDim(current: int, size: nat): Option<int>
  {
    if current <= 0 then Some(size)
    else if current == size then Some(current)
    else None
  }

  /** A dimension after a sequence of faces, starting from the cubemap's initial -1. */
  function FoldDims(start: int, sizes: seq<nat>): Option<int>
  {
    if sizes == [] then Some(start)
    else match FoldDims(start, sizes[..|sizes| - 1])
      case None => None
      case Some(c) => NextDim(c, sizes[|sizes| - 1])
  }

  /** The dimension rule: for faces of positive size, generation succeeds exactly when every face
      has the size of the first, and the dimension then is that size. */
  lemma {:induction false} FoldDimsUniform(sizes: seq<nat>)
    requires forall k :: 0 <= k < |sizes| ==> sizes[k] > 0
    ensures sizes != [] ==>
      (FoldDims(-1, sizes).Some? <==> forall k :: 0 <= k < |sizes| ==> sizes[k] == sizes[0])
    ensures sizes != [] && FoldDims(-1, sizes).Some? ==> FoldDims(-1, sizes) == Some(sizes[0])
    decreases |sizes|
  {
    if |sizes| > 1 {
      var init := sizes[..|sizes| - 1];
      FoldDimsUniform(init);
      assert init[0] == sizes[0];
      if FoldDims(-1, init).Some? {
        assert forall k :: 0 <= k < |init| ==> init[k] == sizes[k];
      } else {
        assert !(forall k :: 0 <= k < |init| ==> init[k] == init[0]);
        var k :| 0 <= k < |init| && init[k] != init[0];
        assert sizes[k] != sizes[0];
      }
    }
  }

  const DIMENSION_MISMATCH := "Attempting to create a Cubemap with textures of different dimensions!"

  class Cubemap {
    const textureID: int
    var width: int
    var height: int
    var internalFormat: PixelFormat
    var imageFormat: PixelFormat
    var wrapS: Wrap
    var wrapT: Wrap
    var wrapR: Wrap
    var minFilter: GLFilter
    var magFilter: GLFilter
    /** The uploaded faces, by OpenGL target. */
    var faces: map<int, seq<bv8>>
    /** Whether SetParams has passed the sampling parameters to OpenGL. */
    var paramsSet: bool

    /** A new cubemap has no dimensions yet (-1 by -1), RGB format, edge clamping on all three axes
        and linear filtering. */
    constructor (id: int)
      ensures textureID == id && width == -1 && height == -1
      ensures internalFormat == RGB && imageFormat == RGB
      ensures wrapS == ClampToEdge && wrapT == ClampToEdge && wrapR == ClampToEdge
      ensures minFilter == Linear && magFilter == Linear
      ensures faces == map[] && !paramsSet
    {
      textureID := id;
      width, height := -1, -1;
      internalFormat, imageFormat := RGB, RGB;
      wrapS, wrapT, wrapR := ClampToEdge, ClampToEdge, ClampToEdge;
      minFilter, magFilter := Linear, Linear;
      faces := map[];
      paramsSet := false;
    }

    /** Generate: the first face fixes width and height, a later face of other dimensions is an
        error, and the face's image goes to target POSITIVE_X + index. */
    method Generate(index: nat, w: nat, h: nat, data: seq<bv8>) returns (o: Outcome)
      modifies this
      ensures o.Pass? <==> NextDim(old(width), w).Some? && NextDim(old(height), h).Some?
      ensures o.Pass? ==> width == w && height == h && faces == old(faces)[FaceTarget(index) := data]
      ensures o.Fail? ==> faces == old(faces)
      ensures old(width) > 0 ==> width == old(width)
      ensures old(height) > 0 ==> height == old(height)
      ensures internalFormat == old(internalFormat) && imageFormat == old(imageFormat)
      ensures paramsSet == old(paramsSet)
    {
      if width <= 0 {
        width := w;
      } else if width != w {
        return Fail(DIMENSION_MISMATCH);
      }
      if height <= 0 {
        height := h;
      } else if height != h {
        return Fail(DIMENSION_MISMATCH);
      }
      faces := faces[FaceTarget(index) := data];
      o := Pass;
    }

    method SetParams()
      modifies this
      ensures paramsSet
      ensures width == old(width) && height == old(height) && faces == old(faces)
      ensures internalFormat == old(internalFormat) && imageFormat == old(imageFormat)
    {
      paramsSet := true;
    }
  }
}
