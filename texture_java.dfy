/** The Java Texture class: its enums and their string maps, the argument
    checks of its constructors, and the sampling-mode setters that keep the
    Java fields and the native texture in step. */
module TextureJava {
  import opened Wrappers
  import opened Strings
  import N = TextureJNI

  // ---------------------------------------------------------------------------
  // Format
  // ---------------------------------------------------------------------------

  datatype Format = RGBA8 | RGB565 | RGB9_E5

  function FormatString(f: Format): string
  {
    match f
    case RGBA8 => "RGBA8"
    case RGB565 => "RGB565"
    case RGB9_E5 => "RGB9_E5"
  }

  /** Format.forString: the first format, in declaration order, whose
      string value equals the name ignoring case; an unknown name is an
      IllegalArgumentException. */
  function FormatForString(s: string): (r: Result<Format, string>)
    ensures r.Ok? ==> EqualsIgnoreCase(FormatString(r.value), s)
    ensures r.Err? ==> forall f :: !EqualsIgnoreCase(FormatString(f), s)
  {
    if EqualsIgnoreCase("RGBA8", s) then Ok(RGBA8)
    else if EqualsIgnoreCase("RGB565", s) then Ok(RGB565)
    else if EqualsIgnoreCase("RGB9_E5", s) then Ok(RGB9_E5)
    else Err("Invalid texture format [" + s + "]")
  }

  /** The static map of Format, keyed by the lower-cased string values. */
  const FormatMap: map<string, Format> := map["rgba8" := RGBA8, "rgb565" := RGB565, "rgb9_e5" := RGB9_E5]

  /** Format.valueFromString: null for null, otherwise a lookup of the
      lower-cased name (null when absent). */
  function FormatValueFromString(str: Option<string>): (r: Option<Format>)
    ensures str.None? ==> r.None?
  {
    match str
    case None => None
    case Some(s) => if ToLower(s) in FormatMap then Some(FormatMap[ToLower(s)]) else None
  }

  /** Every value sits in the map under its lower-cased string value. */
  lemma FormatKeys(f: Format)
    ensures ToLower(FormatString(f)) in FormatMap && FormatMap[ToLower(FormatString(f))] == f
  {
    match f
    case RGBA8 => assert ToLower("RGBA8") == "rgba8";
    case RGB565 => assert ToLower("RGB565") == "rgb565";
    case RGB9_E5 => assert ToLower("RGB9_E5") == "rgb9_e5";
  }

  lemma FormatValueFromStringIff(s: string, f: Format)
    ensures FormatValueFromString(Some(s)) == Some(f) <==> EqualsIgnoreCase(s, FormatString(f))
  {
    FormatKeys(f);
    ToLowerIff(s, FormatString(f));
    var r := FormatValueFromString(Some(s));
    if r.Some? && r != Some(f) {
      FormatKeys(r.value);
      ToLowerIff(s, FormatString(r.value));
    }
  }

  /** forString and valueFromString accept the same names and agree on
      them; they differ only in failing loudly or with null. */
  lemma FormatForStringAgrees(s: string, f: Format)
    ensures FormatForString(s) == Ok(f) <==> FormatValueFromString(Some(s)) == Some(f)
  {
    FormatValueFromStringIff(s, f);
    var r := FormatForString(s);
    if r.Ok? {
      FormatValueFromStringIff(s, r.value);
    }
    if r == Ok(f) {
      EqualsIgnoreCaseSym(FormatString(f), s);
    } else if EqualsIgnoreCase(s, FormatString(f)) {
      EqualsIgnoreCaseSym(s, FormatString(f));
    }
  }

  // ---------------------------------------------------------------------------
  // WrapMode, FilterMode, StereoMode
  // ---------------------------------------------------------------------------

  datatype WrapMode = Clamp | Repeat | Mirror

  function WrapModeString(m: WrapMode): string
  {
    match m
    case Clamp => "Clamp"
    case Repeat => "Repeat"
    case Mirror => "Mirror"
  }

  /** The name of the enum constant, as the native side writes it back. */
  function WrapModeConstant(m: WrapMode): string
  {
    match m
    case Clamp => "CLAMP"
    case Repeat => "REPEAT"
    case Mirror => "MIRROR"
  }

  const WrapModeMap: map<string, WrapMode> := map["clamp" := Clamp, "repeat" := Repeat, "mirror" := Mirror]

  /** WrapMode.valueFromString. */
  function WrapModeValueFromString(str: Option<string>): (r: Option<WrapMode>)
    ensures str.None? ==> r.None?
  {
    match str
    case None => None
    case Some(s) => if ToLower(s) in WrapModeMap then Some(WrapModeMap[ToLower(s)]) else None
  }

  /** Every value sits in the map under its lower-cased string value. */
  lemma WrapModeKeys(m: WrapMode)
    ensures ToLower(WrapModeString(m)) in WrapModeMap && WrapModeMap[ToLower(WrapModeString(m))] == m
  {
    match m
    case Clamp => assert ToLower("Clamp") == "clamp";
    case Repeat => assert ToLower("Repeat") == "repeat";
    case Mirror => assert ToLower("Mirror") == "mirror";
  }

  lemma WrapModeValueFromStringIff(s: string, m: WrapMode)
    ensures WrapModeValueFromString(Some(s)) == Some(m) <==> EqualsIgnoreCase(s, WrapModeString(m))
  {
    WrapModeKeys(m);
    ToLowerIff(s, WrapModeString(m));
    var r := WrapModeValueFromString(Some(s));
    if r.Some? && r != Some(m) {
      WrapModeKeys(r.value);
      ToLowerIff(s, WrapModeString(r.value));
    }
  }

  datatype FilterMode = Nearest | Linear

  function FilterModeString(m: FilterMode): string
  {
    match m
    case Nearest => "Nearest"
    case Linear => "Linear"
  }

  function FilterModeConstant(m: FilterMode): string
  {
    match m
    case Nearest => "NEAREST"
    case Linear => "LINEAR"
  }

  const FilterModeMap: map<string, FilterMode> := map["nearest" := Nearest, "linear" := Linear]

  /** FilterMode.valueFromString. */
  function FilterModeValueFromString(str: Option<string>): (r: Option<FilterMode>)
    ensures str.None? ==> r.None?
  {
    match str
    case None => None
    case Some(s) => if ToLower(s) in FilterModeMap then Some(FilterModeMap[ToLower(s)]) else None
  }

  /** Every value sits in the map under its lower-cased string value. */
  lemma FilterModeKeys(m: FilterMode)
    ensures ToLower(FilterModeString(m)) in FilterModeMap && FilterModeMap[ToLower(FilterModeString(m))] == m
  {
    match m
    case Nearest => assert ToLower("Nearest") == "nearest";
    case Linear => assert ToLower("Linear") == "linear";
  }

  lemma FilterModeValueFromStringIff(s: string, m: FilterMode)
    ensures FilterModeValueFromString(Some(s)) == Some(m) <==> EqualsIgnoreCase(s, FilterModeString(m))
  {
    FilterModeKeys(m);
    ToLowerIff(s, FilterModeString(m));
    var r := FilterModeValueFromString(Some(s));
    if r.Some? && r != Some(m) {
      FilterModeKeys(r.value);
      ToLowerIff(s, FilterModeString(r.value));
    }
  }

  datatype StereoMode = LeftRight | RightLeft | TopBottom | BottomTop

  function StereoModeString(m: StereoMode): string
  {
    match m
    case LeftRight => "leftRight"
    case RightLeft => "rightLeft"
    case TopBottom => "topBottom"
    case BottomTop => "bottomTop"
  }

  const StereoModeMap: map<string, StereoMode> := map["leftright" := LeftRight, "rightleft" := RightLeft, "topbottom" := TopBottom, "bottomtop" := BottomTop]

  /** StereoMode.valueFromString. */
  function StereoModeValueFromString(str: Option<string>): (r: Option<StereoMode>)
    ensures str.None? ==> r.None?
  {
    match str
    case None => None
    case Some(s) => if ToLower(s) in StereoModeMap then Some(StereoModeMap[ToLower(s)]) else None
  }

  /** Every value sits in the map under its lower-cased string value. */
  lemma StereoModeKeys(m: StereoMode)
    ensures ToLower(StereoModeString(m)) in StereoModeMap && StereoModeMap[ToLower(StereoModeString(m))] == m
  {
    match m
    case LeftRight => assert ToLower("leftRight") == "leftright";
    case RightLeft => assert ToLower("rightLeft") == "rightleft";
    case TopBottom => assert ToLower("topBottom") == "topbottom";
    case BottomTop => assert ToLower("bottomTop") == "bottomtop";
  }

  lemma StereoModeValueFromStringIff(s: string, m: StereoMode)
    ensures StereoModeValueFromString(Some(s)) == Some(m) <==> EqualsIgnoreCase(s, StereoModeString(m))
  {
    StereoModeKeys(m);
    ToLowerIff(s, StereoModeString(m));
    var r := StereoModeValueFromString(Some(s));
    if r.Some? && r != Some(m) {
      StereoModeKeys(r.value);
      ToLowerIff(s, StereoModeString(r.value));
    }
  }

  /** The string a constructor hands to native code for an optional stereo
      mode: null when there is none. */
  function StereoArgument(m: Option<StereoMode>): (s: Option<string>)
    ensures s.Some? <==> m.Some?
  {
    match m
    case None => None
    case Some(mode) => Some(StereoModeString(mode))
  }

  /** The stereo string a constructor sends reads back as the same mode. */
  lemma StereoArgumentRoundTrip(m: Option<StereoMode>)
    ensures StereoModeValueFromString(StereoArgument(m)) == m
  {
    if m.Some? {
      StereoModeValueFromStringIff(StereoModeString(m.value), m.value);
    }
  }

  // ---------------------------------------------------------------------------
  // Crossing the bridge
  // ---------------------------------------------------------------------------

  /** A format's string value parses on the native side to the format of
      the same name. */
  lemma FormatsCrossBridge(f: Format)
    ensures N.GetFormat(FormatString(f)) == (match f case RGBA8 => N.RGBA8 case RGB565 => N.RGB565 case RGB9_E5 => N.RGB9_E5)
    ensures N.GetInputFormat(FormatString(f)) == N.GetFormat(FormatString(f))
  {
  }

  /** A sampling mode sent to native code and written back by the native
      side comes home as the same Java constant. */
  lemma SamplingModesCrossBridge(w: WrapMode, m: FilterMode)
    ensures N.JavaWrapModeName(N.GetWrapMode(WrapModeString(w))) == WrapModeConstant(w)
    ensures N.JavaFilterModeName(N.GetFilterMode(FilterModeString(m))) == FilterModeConstant(m)
  {
  }

  // ---------------------------------------------------------------------------
  // Constructor argument checks
  // ---------------------------------------------------------------------------

  /** The exception the ByteBuffer constructor throws, if any. */
  function DataTextureError(direct: bool, input: Format, storage: Format, mipmaps: bool): (e: Option<string>)
    ensures e.None? <==> direct && (input == RGB9_E5 <==> storage == RGB9_E5) && !(input == RGB9_E5 && mipmaps)
  {
    if !direct then Some("Image data must be stored in a direct ByteBuffer")
    else if input == RGB9_E5 then
      if mipmaps then Some("Mipmaps cannot be generated for RGB9_E5 images")
      else if storage != RGB9_E5 then Some("RGB9_E5 images may only be stored in RGB9_E5 format")
      else None
    else if storage == RGB9_E5 then Some("RGB8 and RGB565 images cannot be stored in RGB9_E5 format")
    else None
  }

  /** An accepted ByteBuffer texture reaches the renderer with input and
      storage formats that are either both RGB9_E5 or both not. */
  lemma AcceptedDataFormatsAgree(direct: bool, input: Format, storage: Format, mipmaps: bool)
    requires DataTextureError(direct, input, storage, mipmaps).None?
    ensures N.GetInputFormat(FormatString(input)) == N.RGB9_E5 <==> N.GetFormat(FormatString(storage)) == N.RGB9_E5
  {
    FormatsCrossBridge(input);
    FormatsCrossBridge(storage);
  }

  /** The exception both Bitmap constructors, 2D and cube, throw. */
  function BitmapTextureError(storage: Format): (e: Option<string>)
    ensures e.Some? <==> storage == RGB9_E5
  {
    if storage == RGB9_E5 then Some("Bitmaps cannot be stored in RGB9_E5 format") else None
  }

  /** The exception the VHD constructor throws. */
  function VhdTextureError(direct: bool): (e: Option<string>)
    ensures e.Some? <==> !direct
  {
    if !direct then Some("Image data must be stored in a direct ByteBuffer") else None
  }

  // ---------------------------------------------------------------------------
  // The texture object
  // ---------------------------------------------------------------------------

  class Texture {
    var nativeTexture: N.NativeTexture
    var width: int
    var height: int
    var wrapS: WrapMode
    var wrapT: WrapMode
    var minificationFilter: FilterMode
    var magnificationFilter: FilterMode
    var mipFilter: FilterMode

    /** A texture object around a native texture: both wrap modes CLAMP and
        all three filters LINEAR. */
    constructor (t: N.NativeTexture, w: int, h: int)
      ensures nativeTexture == t && width == w && height == h
      ensures wrapS == Clamp && wrapT == Clamp
      ensures minificationFilter == Linear && magnificationFilter == Linear && mipFilter == Linear
    {
      nativeTexture, width, height := t, w, h;
      wrapS, wrapT := Clamp, Clamp;
      minificationFilter, magnificationFilter, mipFilter := Linear, Linear, Linear;
    }

    /** The ByteBuffer constructor: the checks above, then a native texture
        built from the formats' string values, with the given dimensions. */
    static method CreateFromData(direct: bool, w: int, h: int, input: Format, storage: Format, mipmaps: bool,
                                 stereo: Option<StereoMode>, stereoModeForString: string -> N.StereoMode,
                                 defaultWrap: N.WrapMode, defaultFilter: N.FilterMode)
      returns (r: Result<Texture, string>)
      ensures r.Err? <==> DataTextureError(direct, input, storage, mipmaps).Some?
      ensures r.Err? ==> r.error == DataTextureError(direct, input, storage, mipmaps).value
      ensures r.Ok? ==> fresh(r.value) && fresh(r.value.nativeTexture)
      ensures r.Ok? ==> r.value.width == w && r.value.height == h
      ensures r.Ok? ==> r.value.nativeTexture.width == w && r.value.nativeTexture.height == h
      ensures r.Ok? ==> r.value.nativeTexture.inputFormat == N.GetInputFormat(FormatString(input))
      ensures r.Ok? ==> r.value.nativeTexture.storageFormat == N.GetFormat(FormatString(storage))
      ensures r.Ok? ==> r.value.nativeTexture.stereoMode == N.GetStereoMode(StereoArgument(stereo), stereoModeForString)
    {
      var e := DataTextureError(direct, input, storage, mipmaps);
      if e.Some? {
        return Err(e.value);
      }
      var t := new N.NativeTexture.CreateFromData(w, h, FormatString(input), FormatString(storage),
                                                  StereoArgument(stereo), stereoModeForString, defaultWrap, defaultFilter);
      var texture := new Texture(t, w, h);
      return Ok(texture);
    }

    /** setWrapS: the Java field takes the mode and the native texture the
        mode its string value names, so the two agree afterwards. */
    method SetWrapS(m: WrapMode)
      modifies this`wrapS, nativeTexture`wrapS
      ensures wrapS == m && nativeTexture.wrapS == N.GetWrapMode(WrapModeString(m))
      ensures N.JavaWrapModeName(nativeTexture.wrapS) == WrapModeConstant(wrapS)
    {
      wrapS := m;
      nativeTexture.SetWrapS(WrapModeString(m));
      SamplingModesCrossBridge(m, Linear);
    }

    /** setWrapT. */
    method SetWrapT(m: WrapMode)
      modifies this`wrapT, nativeTexture`wrapT
      ensures wrapT == m && nativeTexture.wrapT == N.GetWrapMode(WrapModeString(m))
      ensures N.JavaWrapModeName(nativeTexture.wrapT) == WrapModeConstant(wrapT)
    {
      wrapT := m;
      nativeTexture.SetWrapT(WrapModeString(m));
      SamplingModesCrossBridge(m, Linear);
    }

    /** setMinificationFilter. */
    method SetMinificationFilter(m: FilterMode)
      modifies this`minificationFilter, nativeTexture`minificationFilter
      ensures minificationFilter == m && nativeTexture.minificationFilter == N.GetFilterMode(FilterModeString(m))
      ensures N.JavaFilterModeName(nativeTexture.minificationFilter) == FilterModeConstant(minificationFilter)
    {
      minificationFilter := m;
      nativeTexture.SetMinificationFilter(FilterModeString(m));
      SamplingModesCrossBridge(Clamp, m);
    }

    /** setMagnificationFilter. */
    method SetMagnificationFilter(m: FilterMode)
      modifies this`magnificationFilter, nativeTexture`magnificationFilter
      ensures magnificationFilter == m && nativeTexture.magnificationFilter == N.GetFilterMode(FilterModeString(m))
      ensures N.JavaFilterModeName(nativeTexture.magnificationFilter) == FilterModeConstant(magnificationFilter)
    {
      magnificationFilter := m;
      nativeTexture.SetMagnificationFilter(FilterModeString(m));
      SamplingModesCrossBridge(Clamp, m);
    }

    /** setMipFilter. */
    method SetMipFilter(m: FilterMode)
      modifies this`mipFilter, nativeTexture`mipFilter
      ensures mipFilter == m && nativeTexture.mipFilter == N.GetFilterMode(FilterModeString(m))
      ensures N.JavaFilterModeName(nativeTexture.mipFilter) == FilterModeConstant(mipFilter)
    {
      mipFilter := m;
      nativeTexture.SetMipFilter(FilterModeString(m));
      SamplingModesCrossBridge(Clamp, m);
    }
  }
}
