/** The texture bridge on the native side: the exact-match name parsers
    that turn the Java enums' string values into renderer modes, the
    mapping of renderer modes back to the Java enum constants, and the
    Java texture object built around an existing native texture. */
module TextureJNI {
  import opened Wrappers

  /** Pixel formats of the renderer. RGBA4 is a storage format only. */
  datatype PixelFormat = RGBA8 | RGBA4 | RGB565 | RGB9_E5

  /** The formats image data can arrive in. */
  type InputFormat = f: PixelFormat | f != RGBA4 witness RGBA8

  /** getInputFormat: exact names, RGBA8 for anything else. */
  function GetInputFormat(s: string): (f: InputFormat)
    ensures f == RGB565 <==> s == "RGB565"
    ensures f == RGB9_E5 <==> s == "RGB9_E5"
  {
    if s == "RGB565" then RGB565
    else if s == "RGB9_E5" then RGB9_E5
    else RGBA8
  }

  /** getFormat: exact names, RGBA8 for anything else. */
  function GetFormat(s: string): (f: PixelFormat)
    ensures f == RGBA4 <==> s == "RGBA4"
    ensures f == RGB565 <==> s == "RGB565"
    ensures f == RGB9_E5 <==> s == "RGB9_E5"
  {
    if s == "RGBA4" then RGBA4
    else if s == "RGB565" then RGB565
    else if s == "RGB9_E5" then RGB9_E5
    else RGBA8
  }

  /** The two parsers agree on every name, except that only the storage
      parser knows RGBA4. */
  lemma InputAndStorageFormatsAgree(s: string)
    ensures GetFormat(s) == (if s == "RGBA4" then RGBA4 else GetInputFormat(s))
  {
  }

  datatype WrapMode = Clamp | Repeat | Mirror

  /** getWrapMode: exact names, Clamp for anything else. */
  function GetWrapMode(s: string): (m: WrapMode)
    ensures m == Repeat <==> s == "Repeat"
    ensures m == Mirror <==> s == "Mirror"
  {
    if s == "Repeat" then Repeat
    else if s == "Mirror" then Mirror
    else Clamp
  }

  datatype FilterMode = Nearest | Linear

  /** getFilterMode: "Nearest", and Linear for anything else. */
  function GetFilterMode(s: string): (m: FilterMode)
    ensures m == Nearest <==> s == "Nearest"
  {
    if s == "Nearest" then Nearest else Linear
  }

  datatype StereoMode = None | LeftRight | RightLeft | TopBottom | BottomTop

  /** getStereoMode: a null or empty string is no stereo; any other string
      goes to the renderer's own stereo-mode parser, which is passed in. */
  function GetStereoMode(s: Option<string>, stereoModeForString: string -> StereoMode): (m: StereoMode)
    ensures (s.None? || s.value == "") ==> m == StereoMode.None
    ensures s.Some? && s.value != "" ==> m == stereoModeForString(s.value)
  {
    match s
    case None => StereoMode.None
    case Some(name) => if name == "" then StereoMode.None else stereoModeForString(name)
  }

  /** setWrapMode: the name of the Java WrapMode constant for a mode. */
  function JavaWrapModeName(m: WrapMode): string
  {
    match m
    case Clamp => "CLAMP"
    case Repeat => "REPEAT"
    case Mirror => "MIRROR"
  }

  /** setFilterMode: the name of the Java FilterMode constant for a mode. */
  function JavaFilterModeName(m: FilterMode): string
  {
    match m
    case Nearest => "NEAREST"
    case Linear => "LINEAR"
  }

  /** Distinct modes are written back as distinct Java constants, so the
      Java object can always tell which mode the renderer holds. */
  lemma JavaNamesInjective(m: WrapMode, n: WrapMode, f: FilterMode, g: FilterMode)
    ensures JavaWrapModeName(m) == JavaWrapModeName(n) ==> m == n
    ensures JavaFilterModeName(f) == JavaFilterModeName(g) ==> f == g
  {
  }

  /** The renderer's texture, as far as the bridge reads and writes it. */
  class NativeTexture {
    var width: int
    var height: int
    var wrapS: WrapMode
    var wrapT: WrapMode
    var minificationFilter: FilterMode
    var magnificationFilter: FilterMode
    var mipFilter: FilterMode
    var inputFormat: InputFormat
    var storageFormat: PixelFormat
    var stereoMode: StereoMode

    /** nativeCreateImageTextureData: the dimensions as given, the formats
        and the stereo mode parsed from their names. The renderer's own
        default sampling modes are passed in. */
    constructor CreateFromData(w: int, h: int, input: string, storage: string, stereo: Option<string>,
                               stereoModeForString: string -> StereoMode,
                               defaultWrap: WrapMode, defaultFilter: FilterMode)
      ensures width == w && height == h
      ensures inputFormat == GetInputFormat(input) && storageFormat == GetFormat(storage)
      ensures stereoMode == GetStereoMode(stereo, stereoModeForString)
      ensures wrapS == defaultWrap && wrapT == defaultWrap
      ensures minificationFilter == defaultFilter && magnificationFilter == defaultFilter && mipFilter == defaultFilter
    {
      width, height := w, h;
      inputFormat, storageFormat := GetInputFormat(input), GetFormat(storage);
      stereoMode := GetStereoMode(stereo, stereoModeForString);
      wrapS, wrapT := defaultWrap, defaultWrap;
      minificationFilter, magnificationFilter, mipFilter := defaultFilter, defaultFilter, defaultFilter;
    }

    /** nativeSetWrapS. */
    method SetWrapS(s: string)
      modifies this`wrapS
      ensures wrapS == GetWrapMode(s)
    {
      wrapS := GetWrapMode(s);
    }

    /** nativeSetWrapT. */
    method SetWrapT(s: string)
      modifies this`wrapT
      ensures wrapT == GetWrapMode(s)
    {
      wrapT := GetWrapMode(s);
    }

    /** nativeSetMinificationFilter. */
    method SetMinificationFilter(s: string)
      modifies this`minificationFilter
      ensures minificationFilter == GetFilterMode(s)
    {
      minificationFilter := GetFilterMode(s);
    }

    /** nativeSetMagnificationFilter. */
    method SetMagnificationFilter(s: string)
      modifies this`magnificationFilter
      ensures magnificationFilter == GetFilterMode(s)
    {
      magnificationFilter := GetFilterMode(s);
    }

    /** nativeSetMipFilter. */
    method SetMipFilter(s: string)
      modifies this`mipFilter
      ensures mipFilter == GetFilterMode(s)
    {
      mipFilter := GetFilterMode(s);
    }
  }

  /** The fields createJTexture writes into a new Java texture object; the
      sampling modes are the names of Java enum constants. */
  datatype JTextureFields = JTextureFields(width: int, height: int, wrapS: string, wrapT: string,
                                           minificationFilter: string, magnificationFilter: string,
                                           mipFilter: string)

  /** createJTexture as written: the texture's width is stored into both
      the width and the height field. */
  function CreateJTextureAsWritten(width: int, height: int, wrapS: WrapMode, wrapT: WrapMode,
                                   minFilter: FilterMode, magFilter: FilterMode, mipFilter: FilterMode): (j: JTextureFields)
    ensures j.width == width && j.height == width
  {
    JTextureFields(width, width, JavaWrapModeName(wrapS), JavaWrapModeName(wrapT),
                   JavaFilterModeName(minFilter), JavaFilterModeName(magFilter), JavaFilterModeName(mipFilter))
  }

  /** Any texture that is not square comes back to Java with the wrong
      height. */
  lemma CreateJTextureLosesHeight(width: int, height: int, wrap: WrapMode, filter: FilterMode)
    requires width != height
    ensures CreateJTextureAsWritten(width, height, wrap, wrap, filter, filter, filter).height != height
  {
  }

  /** createJTexture with the height read from the texture's height. */
  function CreateJTexture(width: int, height: int, wrapS: WrapMode, wrapT: WrapMode,
                          minFilter: FilterMode, magFilter: FilterMode, mipFilter: FilterMode): (j: JTextureFields)
    ensures j.width == width && j.height == height
    ensures j.wrapS == JavaWrapModeName(wrapS) && j.wrapT == JavaWrapModeName(wrapT)
    ensures j.minificationFilter == JavaFilterModeName(minFilter)
    ensures j.magnificationFilter == JavaFilterModeName(magFilter)
    ensures j.mipFilter == JavaFilterModeName(mipFilter)
  {
    JTextureFields(width, height, JavaWrapModeName(wrapS), JavaWrapModeName(wrapT),
                   JavaFilterModeName(minFilter), JavaFilterModeName(magFilter), JavaFilterModeName(mipFilter))
  }

  /** The Java object for a native texture, with the height fixed. */
  function JTextureOf(t: NativeTexture): (j: JTextureFields)
    reads t
    ensures j.width == t.width && j.height == t.height
  {
    CreateJTexture(t.width, t.height, t.wrapS, t.wrapT, t.minificationFilter, t.magnificationFilter, t.mipFilter)
  }
}
