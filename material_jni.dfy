/** The material bridge between the Java Material class and the native
    material: colour unpacking, the name parsers for lighting, blending,
    transparency and culling, and the setters that pick a material property
    by name. */
module MaterialJNI {
  import opened Wrappers
  import opened Strings
  import Arithmetic

  // ---------------------------------------------------------------------------
  // parseColor
  // ---------------------------------------------------------------------------

  /** A colour with channels in [0, 1], as the native material stores it. */
  datatype Color = Color(r: real, g: real, b: real, a: real)

  /** Byte `k` (0 = lowest) of a Java long read with an arithmetic shift
      and a mask of 0xFF. */
  function ColorByte(color: int, k: nat): (c: Byte)
    requires k < 4
  {
    var shift := if k == 0 then 1 else if k == 1 then 0x100 else if k == 2 then 0x1_0000 else 0x100_0000;
    (color / shift) % 256
  }

  function Unit(c: Byte): (u: real)
    ensures 0.0 <= u <= 1.0
  {
    c as real / 255.0
  }

  /** parseColor: alpha is bits 24-31, red 16-23, green 8-15 and blue 0-7;
      each is scaled to [0, 1]. */
  function ParseColor(color: int): (c: Color)
    ensures 0.0 <= c.r <= 1.0 && 0.0 <= c.g <= 1.0 && 0.0 <= c.b <= 1.0 && 0.0 <= c.a <= 1.0
  {
    Color(Unit(ColorByte(color, 2)), Unit(ColorByte(color, 1)), Unit(ColorByte(color, 0)), Unit(ColorByte(color, 3)))
  }

  /** The Java side's ARGB packing of four bytes. */
  function PackArgb(a: Byte, r: Byte, g: Byte, b: Byte): int
  {
    a * 0x100_0000 + r * 0x1_0000 + g * 0x100 + b
  }

  /** parseColor undoes the ARGB packing whatever the upper 32 bits of the
      long hold, so a Java int colour sign-extended to a long (high = -1
      when alpha is 0x80 or more) reads back the same channels. */
  lemma ParseColorUnpacks(high: int, a: Byte, r: Byte, g: Byte, b: Byte)
    ensures ParseColor(high * 0x1_0000_0000 + PackArgb(a, r, g, b)) == Color(Unit(r), Unit(g), Unit(b), Unit(a))
  {
    var color := high * 0x1_0000_0000 + PackArgb(a, r, g, b);
    ByteOf(color, high * 0x100 + a, r * 0x1_0000 + g * 0x100 + b, 0x100_0000, a, high);
    ByteOf(color, high * 0x1_0000 + a * 0x100 + r, g * 0x100 + b, 0x1_0000, r, high * 0x100 + a);
    ByteOf(color, high * 0x100_0000 + a * 0x1_0000 + r * 0x100 + g, b, 0x100, g, high * 0x1_0000 + a * 0x100 + r);
    ByteOf(color, high * 0x1_0000_0000 + a * 0x100_0000 + r * 0x1_0000 + g * 0x100 + b, 0, 1, b,
           high * 0x100_0000 + a * 0x1_0000 + r * 0x100 + g);
  }

  /** color / shift == q, and q's low byte is `c`. */
  lemma ByteOf(color: int, q: int, rest: int, shift: int, c: Byte, upper: int)
    requires shift > 0 && 0 <= rest < shift && color == q * shift + rest && q == upper * 256 + c
    ensures (color / shift) % 256 == c
  {
    Arithmetic.DivModUnique(color, q, rest, shift);
    Arithmetic.DivModUnique(q, upper, c, 256);
  }

  // ---------------------------------------------------------------------------
  // The name parsers. Each compares without regard to case and falls back to
  // the default mode for any other name.
  // ---------------------------------------------------------------------------

  datatype LightingModel = Constant | Blinn | Lambert | Phong | PhysicallyBased

  function LightingModelName(m: LightingModel): string
  {
    match m
    case Constant => "Constant"
    case Blinn => "Blinn"
    case Lambert => "Lambert"
    case Phong => "Phong"
    case PhysicallyBased => "PBR"
  }

  /** parseLightingModel; "Constant" itself is never compared: every name
      that is not one of the other four gives Constant. */
  function ParseLightingModel(s: string): (r: LightingModel)
    ensures r != Constant ==> EqualsIgnoreCase(s, LightingModelName(r))
    ensures r == Constant ==> forall m :: m != Constant ==> !EqualsIgnoreCase(s, LightingModelName(m))
  {
    if EqualsIgnoreCase(s, "Blinn") then Blinn
    else if EqualsIgnoreCase(s, "Lambert") then Lambert
    else if EqualsIgnoreCase(s, "Phong") then Phong
    else if EqualsIgnoreCase(s, "PBR") then PhysicallyBased
    else Constant
  }

  lemma LightingModelNamesDistinct(m: LightingModel, n: LightingModel)
    requires m != n
    ensures !EqualsIgnoreCase(LightingModelName(m), LightingModelName(n))
  {
  }

  /** A name selects a non-constant lighting model exactly when it is that
      model's name up to case. */
  lemma ParseLightingModelIff(s: string, m: LightingModel)
    requires m != Constant
    ensures ParseLightingModel(s) == m <==> EqualsIgnoreCase(s, LightingModelName(m))
  {
    var r := ParseLightingModel(s);
    if EqualsIgnoreCase(s, LightingModelName(m)) && r != m {
      SameNameIgnoringCase(s, LightingModelName(r), LightingModelName(m));
      LightingModelNamesDistinct(r, m);
    }
  }

  datatype BlendMode = None | Alpha | Add | Subtract | Multiply | Screen

  function BlendModeName(m: BlendMode): string
  {
    match m
    case None => "None"
    case Alpha => "Alpha"
    case Add => "Add"
    case Subtract => "Subtract"
    case Multiply => "Multiply"
    case Screen => "Screen"
  }

  /** parseBlendMode: a recognised name, or None for anything else. */
  function ParseBlendMode(s: string): (r: BlendMode)
    ensures EqualsIgnoreCase(s, BlendModeName(r)) || (r == BlendMode.None && forall m :: !EqualsIgnoreCase(s, BlendModeName(m)))
  {
    if EqualsIgnoreCase(s, "None") then BlendMode.None
    else if EqualsIgnoreCase(s, "Alpha") then Alpha
    else if EqualsIgnoreCase(s, "Add") then Add
    else if EqualsIgnoreCase(s, "Subtract") then Subtract
    else if EqualsIgnoreCase(s, "Multiply") then BlendMode.Multiply
    else if EqualsIgnoreCase(s, "Screen") then Screen
    else BlendMode.None
  }

  lemma BlendModeNamesDistinct(m: BlendMode, n: BlendMode)
    requires m != n
    ensures !EqualsIgnoreCase(BlendModeName(m), BlendModeName(n))
  {
  }

  /** Each blend mode is selected by its own name, up to case, and by no
      other; None is also the answer for every unknown name. */
  lemma ParseBlendModeIff(s: string, m: BlendMode)
    ensures EqualsIgnoreCase(s, BlendModeName(m)) ==> ParseBlendMode(s) == m
    ensures m != BlendMode.None ==> (ParseBlendMode(s) == m <==> EqualsIgnoreCase(s, BlendModeName(m)))
  {
    var r := ParseBlendMode(s);
    if EqualsIgnoreCase(s, BlendModeName(m)) && r != m {
      SameNameIgnoringCase(s, BlendModeName(r), BlendModeName(m));
      BlendModeNamesDistinct(r, m);
    }
  }

  datatype TransparencyMode = AOne | RGBZero

  /** parseTransparencyMode: RGBZero by name, AOne otherwise. */
  function ParseTransparencyMode(s: string): (r: TransparencyMode)
    ensures r == RGBZero <==> EqualsIgnoreCase(s, "RGBZero")
  {
    if EqualsIgnoreCase(s, "RGBZero") then RGBZero else AOne
  }

  datatype CullMode = Back | Front | None

  /** parseCullMode: None and Front by name, Back otherwise. */
  function ParseCullMode(s: string): (r: CullMode)
    ensures r == CullMode.None <==> EqualsIgnoreCase(s, "None")
    ensures r == Front <==> EqualsIgnoreCase(s, "Front")
  {
    if EqualsIgnoreCase(s, "None") then CullMode.None
    else if EqualsIgnoreCase(s, "Front") then Front
    else Back
  }

  // ---------------------------------------------------------------------------
  // Material properties chosen by name
  // ---------------------------------------------------------------------------

  datatype Visual = Diffuse | Specular | Normal | Reflective | Emission | Roughness | Metalness
                  | Multiply | AmbientOcclusion | SelfIllumination

  /** The name nativeSetTexture matches for a visual. */
  function TextureName(v: Visual): string
  {
    match v
    case Diffuse => "diffuseTexture"
    case Specular => "specularTexture"
    case Normal => "normalTexture"
    case Reflective => "reflectiveTexture"
    case Emission => "emissionTexture"
    case Roughness => "roughnessTexture"
    case Metalness => "metalnessTexture"
    case Multiply => "multiplyTexture"
    case AmbientOcclusion => "ambientOcclusionTexture"
    case SelfIllumination => "selfIlluminationTexture"
  }

  /** The visual whose texture nativeSetTexture sets, if the name is known. */
  function TextureVisual(name: string): (r: Option<Visual>)
    ensures r.Some? ==> EqualsIgnoreCase(name, TextureName(r.value))
    ensures r.None? ==> forall v :: !EqualsIgnoreCase(name, TextureName(v))
  {
    if EqualsIgnoreCase(name, "diffuseTexture") then Some(Diffuse)
    else if EqualsIgnoreCase(name, "specularTexture") then Some(Specular)
    else if EqualsIgnoreCase(name, "normalTexture") then Some(Normal)
    else if EqualsIgnoreCase(name, "reflectiveTexture") then Some(Reflective)
    else if EqualsIgnoreCase(name, "emissionTexture") then Some(Emission)
    else if EqualsIgnoreCase(name, "roughnessTexture") then Some(Roughness)
    else if EqualsIgnoreCase(name, "metalnessTexture") then Some(Metalness)
    else if EqualsIgnoreCase(name, "multiplyTexture") then Some(Visual.Multiply)
    else if EqualsIgnoreCase(name, "ambientOcclusionTexture") then Some(AmbientOcclusion)
    else if EqualsIgnoreCase(name, "selfIlluminationTexture") then Some(SelfIllumination)
    else Option.None
  }

  lemma TextureNamesDistinct(v: Visual, w: Visual)
    requires v != w
    ensures !EqualsIgnoreCase(TextureName(v), TextureName(w))
  {
    DifferentNames(TextureName(v), TextureName(w));
  }

  /** A name selects a visual's texture exactly when it is that visual's
      texture name up to case. */
  lemma TextureVisualIff(name: string, v: Visual)
    ensures TextureVisual(name) == Some(v) <==> EqualsIgnoreCase(name, TextureName(v))
  {
    var r := TextureVisual(name);
    if EqualsIgnoreCase(name, TextureName(v)) && r != Some(v) {
      SameNameIgnoringCase(name, TextureName(r.value), TextureName(v));
      TextureNamesDistinct(r.value, v);
    }
  }

  /** The name nativeSetColor matches for a visual; roughness and metalness
      have no colour name (nativeSetFloat sets them). */
  function ColorName(v: Visual): string
  {
    match v
    case Diffuse => "diffuseColor"
    case Specular => "specularColor"
    case Normal => "normalColor"
    case Reflective => "reflectiveColor"
    case Emission => "emissionColor"
    case Roughness => ""
    case Metalness => ""
    case Multiply => "multiplyColor"
    case AmbientOcclusion => "ambientOcclusionColor"
    case SelfIllumination => "selfIlluminationColor"
  }

  predicate HasColorName(v: Visual)
  {
    v != Roughness && v != Metalness
  }

  /** The visual whose colour nativeSetColor sets, if the name is known. */
  function ColorVisual(name: string): (r: Option<Visual>)
    ensures r.Some? ==> HasColorName(r.value) && EqualsIgnoreCase(name, ColorName(r.value))
    ensures r.None? ==> forall v :: HasColorName(v) ==> !EqualsIgnoreCase(name, ColorName(v))
  {
    if EqualsIgnoreCase(name, "diffuseColor") then Some(Diffuse)
    else if EqualsIgnoreCase(name, "specularColor") then Some(Specular)
    else if EqualsIgnoreCase(name, "normalColor") then Some(Normal)
    else if EqualsIgnoreCase(name, "reflectiveColor") then Some(Reflective)
    else if EqualsIgnoreCase(name, "emissionColor") then Some(Emission)
    else if EqualsIgnoreCase(name, "multiplyColor") then Some(Visual.Multiply)
    else if EqualsIgnoreCase(name, "ambientOcclusionColor") then Some(AmbientOcclusion)
    else if EqualsIgnoreCase(name, "selfIlluminationColor") then Some(SelfIllumination)
    else Option.None
  }

  lemma ColorNamesDistinct(v: Visual, w: Visual)
    requires v != w && HasColorName(v) && HasColorName(w)
    ensures !EqualsIgnoreCase(ColorName(v), ColorName(w))
  {
    DifferentNames(ColorName(v), ColorName(w));
  }

  /** A name selects a visual's colour exactly when it is that visual's
      colour name up to case. */
  lemma ColorVisualIff(name: string, v: Visual)
    requires HasColorName(v)
    ensures ColorVisual(name) == Some(v) <==> EqualsIgnoreCase(name, ColorName(v))
  {
    var r := ColorVisual(name);
    if EqualsIgnoreCase(name, ColorName(v)) && r != Some(v) {
      SameNameIgnoringCase(name, ColorName(r.value), ColorName(v));
      ColorNamesDistinct(r.value, v);
    }
  }

  /** The visual nativeSetFloat writes: metalness or roughness, by name. */
  function FloatVisual(name: string): (r: Option<Visual>)
    ensures r == Some(Metalness) <==> EqualsIgnoreCase(name, "metalness")
    ensures r == Some(Roughness) <==> EqualsIgnoreCase(name, "roughness")
    ensures r.None? || r == Some(Metalness) || r == Some(Roughness)
  {
    if EqualsIgnoreCase(name, "metalness") then Some(Metalness)
    else if EqualsIgnoreCase(name, "roughness") then Some(Roughness)
    else Option.None
  }

  datatype ShadowMode = Regular | Transparent | Disabled

  /** The shadow mode nativeSetShadowMode reads from its name: anything
      but Disabled and Transparent is the normal mode. */
  function ParseShadowMode(s: string): (r: ShadowMode)
    ensures r == Disabled <==> EqualsIgnoreCase(s, "Disabled")
    ensures r == Transparent <==> EqualsIgnoreCase(s, "Transparent")
  {
    if EqualsIgnoreCase(s, "Disabled") then Disabled
    else if EqualsIgnoreCase(s, "Transparent") then Transparent
    else Regular
  }

  /** The texture and colour of one visual of a material; a texture is
      named by its native reference. */
  datatype VisualState = VisualState(texture: Option<int>, color: Color)

  /** The native material as the bridge's setters change it. Each setter is
      the body the renderer thread runs on a material that is still alive. */
  class Material {
    var visuals: map<Visual, VisualState>
    var lightingModel: LightingModel
    var blendMode: BlendMode
    var transparencyMode: TransparencyMode
    var cullMode: CullMode
    var receivesShadows: bool
    var arShadow: bool

    predicate Valid()
      reads this`visuals
    {
      forall v: Visual :: v in visuals
    }

    /** nativeCreateImmutableMaterial: the modes come from their names, the
        diffuse colour from the packed colour, and the diffuse, specular
        and normal textures are set only for non-zero references. The other
        visuals keep the native defaults `initial` stands for. */
    constructor CreateImmutable(lighting: string, diffuseColor: int, diffuseTexture: int, specularTexture: int,
                                normalMap: int, cull: string, transparency: string, blend: string,
                                initial: map<Visual, VisualState>, receives: bool)
      requires forall v: Visual :: v in initial
      ensures Valid()
      ensures lightingModel == ParseLightingModel(lighting) && cullMode == ParseCullMode(cull)
      ensures transparencyMode == ParseTransparencyMode(transparency) && blendMode == ParseBlendMode(blend)
      ensures visuals[Diffuse].color == ParseColor(diffuseColor)
      ensures visuals[Diffuse].texture == (if diffuseTexture != 0 then Some(diffuseTexture) else initial[Diffuse].texture)
      ensures visuals[Specular].texture == (if specularTexture != 0 then Some(specularTexture) else initial[Specular].texture)
      ensures visuals[Normal].texture == (if normalMap != 0 then Some(normalMap) else initial[Normal].texture)
      ensures visuals[Specular].color == initial[Specular].color && visuals[Normal].color == initial[Normal].color
      ensures forall v :: v != Diffuse && v != Specular && v != Normal ==> visuals[v] == initial[v]
      ensures receivesShadows == receives && !arShadow
    {
      var d := initial[Diffuse].(color := ParseColor(diffuseColor));
      if diffuseTexture != 0 {
        d := d.(texture := Some(diffuseTexture));
      }
      var sp := initial[Specular];
      if specularTexture != 0 {
        sp := sp.(texture := Some(specularTexture));
      }
      var n := initial[Normal];
      if normalMap != 0 {
        n := n.(texture := Some(normalMap));
      }
      visuals := initial[Diffuse := d][Specular := sp][Normal := n];
      lightingModel := ParseLightingModel(lighting);
      cullMode := ParseCullMode(cull);
      transparencyMode := ParseTransparencyMode(transparency);
      blendMode := ParseBlendMode(blend);
      receivesShadows := receives;
      arShadow := false;
    }

    /** nativeSetTexture: reference -1 clears the texture; the one visual
        the name selects changes, and an unknown name changes nothing. */
    method SetTexture(textureRef: int, name: string)
      requires Valid()
      modifies this`visuals
      ensures Valid()
      ensures TextureVisual(name).None? ==> visuals == old(visuals)
      ensures TextureVisual(name).Some? ==>
        var v := TextureVisual(name).value;
        visuals == old(visuals)[v := old(visuals[v]).(texture := if textureRef == -1 then Option.None else Some(textureRef))]
    {
      var texture: Option<int> := if textureRef == -1 then Option.None else Some(textureRef);
      var target := TextureVisual(name);
      if target.Some? {
        visuals := visuals[target.value := visuals[target.value].(texture := texture)];
      }
    }

    /** nativeSetColor: the colour of the visual the name selects. */
    method SetColor(color: int, name: string)
      requires Valid()
      modifies this`visuals
      ensures Valid()
      ensures ColorVisual(name).None? ==> visuals == old(visuals)
      ensures ColorVisual(name).Some? ==>
        var v := ColorVisual(name).value;
        visuals == old(visuals)[v := old(visuals[v]).(color := ParseColor(color))]
    {
      var target := ColorVisual(name);
      if target.Some? {
        visuals := visuals[target.value := visuals[target.value].(color := ParseColor(color))];
      }
    }

    /** nativeSetFloat: metalness and roughness store the value as the grey
        colour (v, v, v, 1); other names change nothing. */
    method SetFloat(value: real, name: string)
      requires Valid()
      modifies this`visuals
      ensures Valid()
      ensures FloatVisual(name).None? ==> visuals == old(visuals)
      ensures FloatVisual(name).Some? ==>
        var v := FloatVisual(name).value;
        visuals == old(visuals)[v := old(visuals[v]).(color := Color(value, value, value, 1.0))]
    {
      var target := FloatVisual(name);
      if target.Some? {
        visuals := visuals[target.value := visuals[target.value].(color := Color(value, value, value, 1.0))];
      }
    }

    /** nativeSetShadowMode: Disabled removes the AR shadow and stops
        receiving shadows; Transparent applies the AR shadow; any other
        name removes it; both of the latter receive shadows. */
    method SetShadowMode(name: string)
      modifies this`arShadow, this`receivesShadows
      ensures arShadow <==> ParseShadowMode(name) == Transparent
      ensures receivesShadows <==> ParseShadowMode(name) != Disabled
    {
      var mode := ParseShadowMode(name);
      if mode == Disabled {
        arShadow, receivesShadows := false, false;
      } else if mode == Transparent {
        arShadow, receivesShadows := true, true;
      } else {
        arShadow, receivesShadows := false, true;
      }
    }

    /** nativeSetLightingModel. */
    method SetLightingModel(name: string)
      modifies this`lightingModel
      ensures lightingModel == ParseLightingModel(name)
    {
      lightingModel := ParseLightingModel(name);
    }

    /** nativeSetBlendMode. */
    method SetBlendMode(name: string)
      modifies this`blendMode
      ensures blendMode == ParseBlendMode(name)
    {
      blendMode := ParseBlendMode(name);
    }

    /** nativeSetTransparencyMode. */
    method SetTransparencyMode(name: string)
      modifies this`transparencyMode
      ensures transparencyMode == ParseTransparencyMode(name)
    {
      transparencyMode := ParseTransparencyMode(name);
    }

    /** nativeSetCullMode. */
    method SetCullMode(name: string)
      modifies this`cullMode
      ensures cullMode == ParseCullMode(name)
    {
      cullMode := ParseCullMode(name);
    }
  }
}
