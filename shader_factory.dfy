/** The shader factory (VROShaderFactory.cpp): the capability key derived
    from a material, the ordered cache of programs keyed by it, the choice
    of base shaders, samplers and modifiers for a key, the per-mode cache of
    stereo texture modifiers, and the purge of programs nobody else holds. */
module ShaderFactory {
  import opened Wrappers

  // ---------------------------------------------------------------------
  // Material description
  // ---------------------------------------------------------------------

  /** Lighting models, in the declaration order their ranks follow. */
  datatype LightingModel = Constant | Blinn | Lambert | Phong | PhysicallyBased

  datatype TextureType = NoTexture | Texture2D | TextureCube | TextureEGLImage

  datatype StereoMode = StereoNone | LeftRight | RightLeft | TopBottom | BottomTop

  /** One visual of a material: what kind of texture it holds, the stereo
      layout of that texture and whether its internal format is YCbCr. */
  datatype Visual = Visual(textureType: TextureType, stereoMode: StereoMode, ycbcr: bool)

  /** The parts of a material the factory reads; modifierKey is the key of
      the material's own shader modifiers. */
  datatype Material = Material(lightingModel: LightingModel, diffuse: Visual, specular: Visual,
                               normal: Visual, reflective: Visual, modifierKey: string,
                               modifiers: seq<Modifier>)

  // ---------------------------------------------------------------------
  // Capability keys
  // ---------------------------------------------------------------------

  /** The diffuse texture kinds, in declaration order. */
  datatype DiffuseTexture = DiffuseNone | DiffuseYCbCr | DiffuseNormal | DiffuseCube

  datatype MaterialCapabilities = MaterialCapabilities(
    lightingModel: LightingModel, diffuseTexture: DiffuseTexture, diffuseStereoMode: StereoMode,
    diffuseEGLModifier: bool, specularTexture: bool, normalTexture: bool, reflectiveTexture: bool)

  /** The whole key: material capabilities, whether shadows are drawn, and
      the key of the material's own modifiers. */
  datatype ShaderKey = ShaderKey(material: MaterialCapabilities, shadows: bool, modifierKeys: string)

  /** deriveMaterialCapabilitiesKey. A 2D or EGL-image diffuse texture gives
      a YCbCr or normal diffuse slot carrying its stereo mode; a cube map gives
      a cube slot with no stereo; anything else no diffuse texture. The
      specular slot needs a 2D specular texture under Blinn or Phong, which
      otherwise fall back to Lambert. */
  function DeriveMaterialCapabilities(m: Material): (c: MaterialCapabilities)
    ensures m.diffuse.textureType in {Texture2D, TextureEGLImage} ==>
      && c.diffuseTexture == (if m.diffuse.ycbcr then DiffuseYCbCr else DiffuseNormal)
      && c.diffuseStereoMode == m.diffuse.stereoMode
    ensures m.diffuse.textureType == TextureCube ==> c.diffuseTexture == DiffuseCube && c.diffuseStereoMode == StereoNone
    ensures m.diffuse.textureType == NoTexture ==> c.diffuseTexture == DiffuseNone && c.diffuseStereoMode == StereoNone
    ensures c.diffuseEGLModifier <==> m.diffuse.textureType == TextureEGLImage
    ensures c.specularTexture <==> m.specular.textureType == Texture2D && m.lightingModel in {Blinn, Phong}
    ensures c.normalTexture <==> m.normal.textureType == Texture2D
    ensures c.reflectiveTexture <==> m.reflective.textureType == TextureCube
    ensures m.lightingModel in {Blinn, Phong} && m.specular.textureType != Texture2D ==> c.lightingModel == Lambert
    ensures c.lightingModel == m.lightingModel || c.lightingModel == Lambert
  {
    var diffuseType := m.diffuse.textureType;
    var twoD := diffuseType == Texture2D || diffuseType == TextureEGLImage;
    var specular2D := m.specular.textureType == Texture2D;
    MaterialCapabilities(
      if (m.lightingModel == Blinn || m.lightingModel == Phong) && !specular2D then Lambert else m.lightingModel,
      if twoD then (if m.diffuse.ycbcr then DiffuseYCbCr else DiffuseNormal)
      else if diffuseType == TextureCube then DiffuseCube else DiffuseNone,
      if twoD then m.diffuse.stereoMode else StereoNone,
      diffuseType == TextureEGLImage,
      specular2D && (m.lightingModel == Blinn || m.lightingModel == Phong),
      m.normal.textureType == Texture2D,
      m.reflective.textureType == TextureCube)
  }

  /** A key's specular lighting model always comes with a specular texture. */
  lemma SpecularModelHasTexture(m: Material)
    ensures var c := DeriveMaterialCapabilities(m);
      c.lightingModel in {Blinn, Phong} <==> c.specularTexture
  {
  }

  /** deriveLightingCapabilitiesKey: no light turns shadows on yet. */
  function DeriveShadows<Light>(lights: seq<Light>): (shadows: bool)
    ensures !shadows
  {
    false
  }

  function KeyOf<Light>(m: Material, lights: seq<Light>): ShaderKey
  {
    ShaderKey(DeriveMaterialCapabilities(m), DeriveShadows(lights), m.modifierKey)
  }

  // ---------------------------------------------------------------------
  // Key order
  // ---------------------------------------------------------------------

  /** Lexicographic order on integer sequences, a proper prefix first. */
  predicate SeqLess(a: seq<int>, b: seq<int>)
  {
    if |a| == 0 then |b| > 0
    else if |b| == 0 then false
    else a[0] < b[0] || (a[0] == b[0] && SeqLess(a[1..], b[1..]))
  }

  lemma {:induction false} SeqLessIrreflexive(a: seq<int>)
    ensures !SeqLess(a, a)
  {
    if |a| > 0 {
      SeqLessIrreflexive(a[1..]);
    }
  }

  lemma {:induction false} SeqLessTransitive(a: seq<int>, b: seq<int>, c: seq<int>)
    requires SeqLess(a, b) && SeqLess(b, c)
    ensures SeqLess(a, c)
  {
    if |a| > 0 && |b| > 0 && |c| > 0 && a[0] == b[0] && b[0] == c[0] {
      SeqLessTransitive(a[1..], b[1..], c[1..]);
    }
  }

  lemma {:induction false} SeqLessTotal(a: seq<int>, b: seq<int>)
    requires a != b
    ensures SeqLess(a, b) || SeqLess(b, a)
  {
    if |a| > 0 && |b| > 0 && a[0] == b[0] {
      if a[1..] != b[1..] {
        SeqLessTotal(a[1..], b[1..]);
      }
    }
  }

  function LightingRank(l: LightingModel): int
  {
    match l
    case Constant => 0
    case Blinn => 1
    case Lambert => 2
    case Phong => 3
    case PhysicallyBased => 4
  }

  function DiffuseRank(d: DiffuseTexture): int
  {
    match d
    case DiffuseNone => 0
    case DiffuseYCbCr => 1
    case DiffuseNormal => 2
    case DiffuseCube => 3
  }

  function StereoRank(s: StereoMode): int
  {
    match s
    case StereoNone => 0
    case LeftRight => 1
    case RightLeft => 2
    case TopBottom => 3
    case BottomTop => 4
  }

  function BoolRank(b: bool): int
  {
    if b then 1 else 0
  }

  function CharCodes(s: string): (r: seq<int>)
    ensures |r| == |s| && forall i :: 0 <= i < |s| ==> r[i] == s[i] as int
  {
    if |s| == 0 then [] else [s[0] as int] + CharCodes(s[1..])
  }

  /** A key as the sequence its tuple comparison walks: the seven material
      fields, then the shadow flag (each a fixed-width slot), then the
      modifier key character by character. */
  function Encode(k: ShaderKey): (r: seq<int>)
    ensures |r| == 8 + |k.modifierKeys|
  {
    var m := k.material;
    [LightingRank(m.lightingModel), DiffuseRank(m.diffuseTexture), StereoRank(m.diffuseStereoMode),
     BoolRank(m.diffuseEGLModifier), BoolRank(m.specularTexture), BoolRank(m.normalTexture),
     BoolRank(m.reflectiveTexture), BoolRank(k.shadows)] + CharCodes(k.modifierKeys)
  }

  /** Different keys encode differently. */
  lemma EncodeInjective(a: ShaderKey, b: ShaderKey)
    requires Encode(a) == Encode(b)
    ensures a == b
  {
    var ea, eb := Encode(a), Encode(b);
    var ma, mb := a.material, b.material;
    assert ea[0] == eb[0] && ea[1] == eb[1] && ea[2] == eb[2] && ea[3] == eb[3];
    assert ea[4] == eb[4] && ea[5] == eb[5] && ea[6] == eb[6] && ea[7] == eb[7];
    assert ma.lightingModel == mb.lightingModel;
    assert ma.diffuseTexture == mb.diffuseTexture;
    assert ma.diffuseStereoMode == mb.diffuseStereoMode;
    assert ma == mb;
    assert a.modifierKeys == b.modifierKeys by {
      var ca, cb := CharCodes(a.modifierKeys), CharCodes(b.modifierKeys);
      assert ea[8..] == ca && eb[8..] == cb;
      assert forall i :: 0 <= i < |a.modifierKeys| ==> a.modifierKeys[i] as int == ca[i] == cb[i] == b.modifierKeys[i] as int;
    }
  }

  /** The key order std::map uses: std::tie over the material fields, the
      shadow flag and the modifier key, which is the lexicographic order of
      the encodings. */
  predicate KeyLess(a: ShaderKey, b: ShaderKey)
  {
    SeqLess(Encode(a), Encode(b))
  }

  /** The key order is a strict total order, so two keys the map treats as
      equivalent (neither less than the other) are the same key: one
      program per distinct key. */
  lemma KeyOrderStrictTotal(a: ShaderKey, b: ShaderKey, c: ShaderKey)
    ensures !KeyLess(a, a)
    ensures KeyLess(a, b) && KeyLess(b, c) ==> KeyLess(a, c)
    ensures a != b ==> KeyLess(a, b) || KeyLess(b, a)
    ensures !KeyLess(a, b) && !KeyLess(b, a) <==> a == b
  {
    SeqLessIrreflexive(Encode(a));
    if KeyLess(a, b) && KeyLess(b, c) {
      SeqLessTransitive(Encode(a), Encode(b), Encode(c));
    }
    if a != b {
      if Encode(a) == Encode(b) {
        EncodeInjective(a, b);
      }
      SeqLessTotal(Encode(a), Encode(b));
    }
  }

  // ---------------------------------------------------------------------
  // Modifiers and programs
  // ---------------------------------------------------------------------

  datatype EyeType = LeftEye | RightEye

  /** The stereo texture modifier: which texture coordinate is halved and
      which eye sees which half. */
  datatype StereoModifier = StereoModifier(axis: char, firstHalfEye: EyeType, secondHalfEye: EyeType)

  datatype Modifier =
    | DiffuseTextureModifier | YCbCrTextureModifier | StereoTextureModifier(stereo: StereoModifier)
    | EGLImageModifier | SpecularTextureModifier | NormalMapModifier | ReflectiveTextureModifier
    | LambertModifier | BlinnModifier | PhongModifier | ShadowGeometryModifier | ShadowLightModifier
    | MaterialModifier(id: int)

  /** createStereoTextureModifier: vertical layouts split along y, the rest
      along x; the swapped layouts give the first half to the right eye. */
  function StereoModifierFor(mode: StereoMode): (s: StereoModifier)
    ensures s.axis == 'y' <==> mode in {TopBottom, BottomTop}
    ensures s.axis == 'x' <==> mode !in {TopBottom, BottomTop}
    ensures s.firstHalfEye == RightEye <==> mode in {RightLeft, BottomTop}
    ensures s.firstHalfEye != s.secondHalfEye
  {
    var axis := if mode == TopBottom || mode == BottomTop then 'y' else 'x';
    if mode == RightLeft || mode == BottomTop then StereoModifier(axis, RightEye, LeftEye)
    else StereoModifier(axis, LeftEye, RightEye)
  }

  /** The static stereo modifier cache: one modifier per stereo mode, made
      the first time the mode is asked for. */
  class StereoModifierCache {
    var modifiers: map<StereoMode, StereoModifier>

    constructor()
      ensures modifiers == map[] && Valid()
    {
      modifiers := map[];
    }

    /** Every cached modifier is the one its mode calls for. */
    predicate Valid()
      reads this
    {
      forall mode :: mode in modifiers ==> modifiers[mode] == StereoModifierFor(mode)
    }

    method Get(mode: StereoMode) returns (s: StereoModifier)
      requires Valid()
      modifies this
      ensures Valid() && s == StereoModifierFor(mode)
      ensures mode in modifiers && modifiers == old(modifiers)[mode := s]
    {
      if mode in modifiers {
        s := modifiers[mode];
      } else {
        s := StereoModifierFor(mode);
        modifiers := modifiers[mode := s];
      }
    }
  }

  datatype Attribute = Texcoord | Normal | Tangent | BoneIndices | BoneWeights

  /** The texture samplers a program can declare. */
  datatype Sampler =
    | DiffuseSampler | DiffuseYSampler | DiffuseCbCrSampler | SpecularSampler
    | NormalSampler | ReflectSampler | ShadowMapSampler

  /** The uniform name each sampler is declared under. */
  function SamplerName(s: Sampler): string
  {
    match s
    case DiffuseSampler => "diffuse_texture"
    case DiffuseYSampler => "diffuse_texture_y"
    case DiffuseCbCrSampler => "diffuse_texture_cbcr"
    case SpecularSampler => "specular_texture"
    case NormalSampler => "normal_texture"
    case ReflectSampler => "reflect_texture"
    case ShadowMapSampler => "shadow_map"
  }

  /** The position of each sampler in buildShader's fixed order. */
  function SamplerRank(s: Sampler): int
  {
    match s
    case DiffuseSampler => 0
    case DiffuseYSampler => 1
    case DiffuseCbCrSampler => 2
    case SpecularSampler => 3
    case NormalSampler => 4
    case ReflectSampler => 5
    case ShadowMapSampler => 6
  }

  datatype ShaderProgram = ShaderProgram(vertexShader: string, fragmentShader: string, samplers: seq<Sampler>,
                                         modifiers: seq<Modifier>, attributes: seq<Attribute>)

  function DiffuseSamplers(d: DiffuseTexture): seq<Sampler>
  {
    match d
    case DiffuseNormal => [DiffuseSampler]
    case DiffuseYCbCr => [DiffuseYSampler, DiffuseCbCrSampler]
    case DiffuseCube => [DiffuseSampler]
    case DiffuseNone => []
  }

  function If<T>(b: bool, xs: seq<T>): seq<T>
  {
    if b then xs else []
  }

  function BaseFragmentShader(c: MaterialCapabilities): (f: string)
    ensures f == "constant_q_fsh" <==> c.lightingModel == Constant && c.diffuseTexture == DiffuseCube
    ensures f == "constant_fsh" <==> c.lightingModel == Constant && c.diffuseTexture != DiffuseCube
    ensures f == "standard_fsh" <==> c.lightingModel != Constant
  {
    if c.lightingModel == Constant then
      if c.diffuseTexture == DiffuseCube then "constant_q_fsh" else "constant_fsh"
    else "standard_fsh"
  }

  /** The samplers a key needs: the diffuse ones, then one per optional
      texture the key has. */
  function Samplers(k: ShaderKey): seq<Sampler>
  {
    var c := k.material;
    DiffuseSamplers(c.diffuseTexture) + OptionalSamplers(c.specularTexture, c.normalTexture, c.reflectiveTexture, k.shadows)
  }

  function OptionalSamplers(specular: bool, normal: bool, reflect: bool, shadows: bool): seq<Sampler>
  {
    If(specular, [SpecularSampler])
      + (If(normal, [NormalSampler]) + (If(reflect, [ReflectSampler]) + If(shadows, [ShadowMapSampler])))
  }

  /** Each sampler is declared exactly when the key has its texture. */
  lemma SamplersPresent(k: ShaderKey)
    ensures var r := Samplers(k);
      && (SpecularSampler in r <==> k.material.specularTexture)
      && (NormalSampler in r <==> k.material.normalTexture)
      && (ReflectSampler in r <==> k.material.reflectiveTexture)
      && (ShadowMapSampler in r <==> k.shadows)
      && (DiffuseSampler in r <==> k.material.diffuseTexture in {DiffuseNormal, DiffuseCube})
      && (DiffuseYSampler in r <==> k.material.diffuseTexture == DiffuseYCbCr)
  {
    var c := k.material;
    OptionalSamplersAre(c.specularTexture, c.normalTexture, c.reflectiveTexture, k.shadows);
    assert forall x :: x in DiffuseSamplers(c.diffuseTexture) ==>
      x == DiffuseSampler || x == DiffuseYSampler || x == DiffuseCbCrSampler;
  }

  /** Each optional sampler is there exactly when its flag is set. */
  lemma OptionalSamplersAre(specular: bool, normal: bool, reflect: bool, shadows: bool)
    ensures forall x :: x in OptionalSamplers(specular, normal, reflect, shadows) <==>
      (x == SpecularSampler && specular) || (x == NormalSampler && normal) ||
      (x == ReflectSampler && reflect) || (x == ShadowMapSampler && shadows)
  {
    var t3 := If(shadows, [ShadowMapSampler]);
    var t2 := If(reflect, [ReflectSampler]) + t3;
    var t1 := If(normal, [NormalSampler]) + t2;
    assert forall x :: x in t3 <==> x == ShadowMapSampler && shadows;
    assert forall x :: x in t2 <==> (x == ReflectSampler && reflect) || (x == ShadowMapSampler && shadows);
  }

  function LightingModifiers(l: LightingModel): seq<Modifier>
  {
    match l
    case Lambert => [LambertModifier]
    case Blinn => [BlinnModifier]
    case Phong => [PhongModifier]
    case _ => []
  }

  function DiffuseModifiers(d: DiffuseTexture): seq<Modifier>
  {
    match d
    case DiffuseNormal => [DiffuseTextureModifier]
    case DiffuseYCbCr => [YCbCrTextureModifier]
    case _ => []
  }

  /** The modifiers a key adds after the material's own: the diffuse
      texture's, the stereo and EGL ones, one per optional texture, the
      lighting model's, and the shadow pair. */
  function CapabilityModifiers(k: ShaderKey): seq<Modifier>
  {
    var c := k.material;
    var stereo := If(c.diffuseStereoMode != StereoNone, [StereoTextureModifier(StereoModifierFor(c.diffuseStereoMode))]);
    var r := DiffuseModifiers(c.diffuseTexture)
      + stereo
      + If(c.diffuseEGLModifier, [EGLImageModifier])
      + If(c.specularTexture, [SpecularTextureModifier])
      + If(c.normalTexture, [NormalMapModifier])
      + If(c.reflectiveTexture, [ReflectiveTextureModifier])
      + LightingModifiers(c.lightingModel)
      + If(k.shadows, [ShadowGeometryModifier, ShadowLightModifier]);
    r
  }

  /** The lighting model's modifier appears exactly for that model. */
  lemma LightingModifiersPresent(k: ShaderKey)
    ensures var r := CapabilityModifiers(k);
      && (LambertModifier in r <==> k.material.lightingModel == Lambert)
      && (BlinnModifier in r <==> k.material.lightingModel == Blinn)
      && (PhongModifier in r <==> k.material.lightingModel == Phong)
  {
    var c := k.material;
    DiffuseOnly(c.diffuseTexture);
    var sm := StereoTextureModifier(StereoModifierFor(c.diffuseStereoMode));
    InIf(c.diffuseStereoMode != StereoNone, [sm], LambertModifier);
    InIf(c.diffuseStereoMode != StereoNone, [sm], BlinnModifier);
    InIf(c.diffuseStereoMode != StereoNone, [sm], PhongModifier);
  }

  /** The texture modifiers appear exactly when the key has the texture:
      specular, EGL image, and the stereo modifier for the diffuse layout. */
  lemma TextureModifiersPresent(k: ShaderKey)
    ensures var r := CapabilityModifiers(k);
      && (SpecularTextureModifier in r <==> k.material.specularTexture)
      && (EGLImageModifier in r <==> k.material.diffuseEGLModifier)
      && (StereoTextureModifier(StereoModifierFor(k.material.diffuseStereoMode)) in r
          <==> k.material.diffuseStereoMode != StereoNone)
  {
    var c := k.material;
    DiffuseOnly(c.diffuseTexture);
    LightingOnly(c.lightingModel);
    var sm := StereoTextureModifier(StereoModifierFor(c.diffuseStereoMode));
    InIf(c.diffuseStereoMode != StereoNone, [sm], sm);
    InIf(c.diffuseEGLModifier, [EGLImageModifier], EGLImageModifier);
    InIf(c.specularTexture, [SpecularTextureModifier], SpecularTextureModifier);
  }

  lemma InIf<T>(b: bool, xs: seq<T>, x: T)
    ensures x in If(b, xs) <==> b && x in xs
  {
  }

  lemma DiffuseOnly(d: DiffuseTexture)
    ensures forall x :: x in DiffuseModifiers(d) ==> x == DiffuseTextureModifier || x == YCbCrTextureModifier
  {
  }

  lemma LightingOnly(l: LightingModel)
    ensures forall x :: x in LightingModifiers(l) ==> x == LambertModifier || x == BlinnModifier || x == PhongModifier
  {
  }

  /** buildShader: the standard vertex shader with the key's base fragment
      shader, the key's samplers, and the material's own modifiers followed
      by the key's. */
  function BuildShader(k: ShaderKey, materialModifiers: seq<Modifier>): (p: ShaderProgram)
    ensures p.vertexShader == "standard_vsh" && p.fragmentShader == BaseFragmentShader(k.material)
    ensures p.samplers == Samplers(k)
    ensures p.modifiers == materialModifiers + CapabilityModifiers(k)
    ensures p.attributes == [Texcoord, Normal, Tangent, BoneIndices, BoneWeights]
  {
    ShaderProgram("standard_vsh", BaseFragmentShader(k.material), Samplers(k),
                  materialModifiers + CapabilityModifiers(k),
                  [Texcoord, Normal, Tangent, BoneIndices, BoneWeights])
  }

  /** Samplers strictly in buildShader's order, so each at most once. */
  predicate InOrder(xs: seq<Sampler>)
  {
    forall i, j :: 0 <= i < j < |xs| ==> SamplerRank(xs[i]) < SamplerRank(xs[j])
  }

  /** Putting samplers of lower rank in front keeps the order. */
  lemma PrependInOrder(front: seq<Sampler>, back: seq<Sampler>)
    requires InOrder(front) && InOrder(back)
    requires forall x, y :: x in front && y in back ==> SamplerRank(x) < SamplerRank(y)
    ensures InOrder(front + back)
  {
    var r := front + back;
    forall i, j | 0 <= i < j < |r|
      ensures SamplerRank(r[i]) < SamplerRank(r[j])
    {
      if j < |front| {
        assert r[i] == front[i] && r[j] == front[j];
      } else if i < |front| {
        assert r[i] == front[i] && r[j] == back[j - |front|];
        assert r[i] in front && r[j] in back;
      } else {
        assert r[i] == back[i - |front|] && r[j] == back[j - |front|];
      }
    }
  }

  predicate RanksAtLeast(xs: seq<Sampler>, r: int)
  {
    forall i :: 0 <= i < |xs| ==> SamplerRank(xs[i]) >= r
  }

  /** An optional sampler in front of higher-ranked ones keeps the order. */
  lemma PrependOptional(b: bool, s: Sampler, t: seq<Sampler>)
    requires InOrder(t) && RanksAtLeast(t, SamplerRank(s) + 1)
    ensures InOrder(If(b, [s]) + t) && RanksAtLeast(If(b, [s]) + t, SamplerRank(s))
  {
    var r := If(b, [s]) + t;
    if b {
      forall i, j | 0 <= i < j < |r|
        ensures SamplerRank(r[i]) < SamplerRank(r[j])
      {
        assert r[j] == t[j - 1];
        if i > 0 {
          assert r[i] == t[i - 1];
        }
      }
      forall i | 0 <= i < |r|
        ensures SamplerRank(r[i]) >= SamplerRank(s)
      {
        if i > 0 {
          assert r[i] == t[i - 1];
        }
      }
    } else {
      assert r == t;
    }
  }

  /** Samplers always come in the order diffuse, specular, normal, reflect,
      shadow map, each at most once. */
  lemma SamplersInOrder(k: ShaderKey)
    ensures InOrder(Samplers(k))
  {
    var c := k.material;
    OptionalInOrder(c.specularTexture, c.normalTexture, c.reflectiveTexture, k.shadows);
    var d := DiffuseSamplers(c.diffuseTexture);
    assert InOrder(d) && forall i :: 0 <= i < |d| ==> SamplerRank(d[i]) < 3;
    ConcatInOrder(d, OptionalSamplers(c.specularTexture, c.normalTexture, c.reflectiveTexture, k.shadows), 3);
  }

  lemma OptionalInOrder(specular: bool, normal: bool, reflect: bool, shadows: bool)
    ensures InOrder(OptionalSamplers(specular, normal, reflect, shadows))
    ensures RanksAtLeast(OptionalSamplers(specular, normal, reflect, shadows), 3)
  {
    var t3 := If(shadows, [ShadowMapSampler]);
    assert InOrder(t3) && RanksAtLeast(t3, 6);
    var t2 := If(reflect, [ReflectSampler]) + t3;
    PrependOptional(reflect, ReflectSampler, t3);
    var t1 := If(normal, [NormalSampler]) + t2;
    PrependOptional(normal, NormalSampler, t2);
    PrependOptional(specular, SpecularSampler, t1);
  }

  /** Two ordered runs split by a rank make one ordered run. */
  lemma ConcatInOrder(a: seq<Sampler>, b: seq<Sampler>, bound: int)
    requires InOrder(a) && InOrder(b) && RanksAtLeast(b, bound)
    requires forall i :: 0 <= i < |a| ==> SamplerRank(a[i]) < bound
    ensures InOrder(a + b)
  {
    var r := a + b;
    forall i, j | 0 <= i < j < |r|
      ensures SamplerRank(r[i]) < SamplerRank(r[j])
    {
      if j < |a| {
        assert r[i] == a[i] && r[j] == a[j];
      } else if i < |a| {
        assert r[i] == a[i] && r[j] == b[j - |a|];
      } else {
        assert r[i] == b[i - |a|] && r[j] == b[j - |a|];
      }
    }
  }

  // ---------------------------------------------------------------------
  // The program cache
  // ---------------------------------------------------------------------

  /** A cached program, with the number it was built under. */
  datatype CachedProgram = CachedProgram(id: int, program: ShaderProgram)

  type Entry = (ShaderKey, CachedProgram)

  /** The map's entries in key order. */
  predicate Sorted(entries: seq<Entry>)
  {
    forall i, j :: 0 <= i < j < |entries| ==> KeyLess(entries[i].0, entries[j].0)
  }

  function Lookup(entries: seq<Entry>, k: ShaderKey): Option<CachedProgram>
  {
    if |entries| == 0 then None
    else if entries[0].0 == k then Some(entries[0].1)
    else Lookup(entries[1..], k)
  }

  function Keys(entries: seq<Entry>): set<ShaderKey>
  {
    set i | 0 <= i < |entries| :: entries[i].0
  }

  lemma {:induction false} LookupNone(entries: seq<Entry>, k: ShaderKey)
    requires forall i :: 0 <= i < |entries| ==> entries[i].0 != k
    ensures Lookup(entries, k) == None
  {
    if |entries| > 0 {
      assert forall i :: 0 <= i < |entries| - 1 ==> entries[1..][i] == entries[i + 1];
      LookupNone(entries[1..], k);
    }
  }

  lemma {:induction false} LookupAppend(a: seq<Entry>, b: seq<Entry>, k: ShaderKey)
    ensures Lookup(a + b, k) == if Lookup(a, k).Some? then Lookup(a, k) else Lookup(b, k)
  {
    if |a| > 0 {
      assert (a + b)[1..] == a[1..] + b;
      LookupAppend(a[1..], b, k);
    } else {
      assert a + b == b;
    }
  }

  /** Where a key stands in a sorted cache: the keys before are smaller. */
  lemma SortedSplit(entries: seq<Entry>, i: int, k: ShaderKey)
    requires Sorted(entries) && 0 <= i <= |entries|
    requires forall j :: 0 <= j < i ==> KeyLess(entries[j].0, k)
    requires i < |entries| ==> KeyLess(k, entries[i].0)
    ensures forall j :: 0 <= j < |entries| ==> entries[j].0 != k
    ensures forall j :: i <= j < |entries| ==> KeyLess(k, entries[j].0)
  {
    forall j | 0 <= j < |entries|
      ensures entries[j].0 != k
      ensures i <= j ==> KeyLess(k, entries[j].0)
    {
      KeyOrderStrictTotal(k, entries[j].0, k);
      if i <= j {
        if i < j {
          KeyOrderStrictTotal(k, entries[i].0, entries[j].0);
        }
      }
    }
  }

  /** The shader factory's per-instance program cache. */
  class Factory {
    var entries: seq<Entry>
    /** Programs built so far; the next one gets this number. */
    var buildCount: int

    constructor()
      ensures entries == [] && buildCount == 0 && Valid()
    {
      entries := [];
      buildCount := 0;
    }

    /** Entries in strict key order, each program numbered before the
      next build. */
    predicate Valid()
      reads this
    {
      Sorted(entries) && 0 <= buildCount && forall i :: 0 <= i < |entries| ==> entries[i].1.id < buildCount
    }

    /** getShader: the program cached for the material's key, or a program
      built for that key and cached under it. */
    method GetShader<Light>(m: Material, lights: seq<Light>) returns (p: CachedProgram)
      requires Valid()
      modifies this
      ensures Valid()
      ensures Lookup(entries, KeyOf(m, lights)) == Some(p)
      ensures Lookup(old(entries), KeyOf(m, lights)).Some? ==>
        Lookup(old(entries), KeyOf(m, lights)) == Some(p) && entries == old(entries) && buildCount == old(buildCount)
      ensures Lookup(old(entries), KeyOf(m, lights)).None? ==>
        && p == CachedProgram(old(buildCount), BuildShader(KeyOf(m, lights), m.modifiers))
        && buildCount == old(buildCount) + 1
      ensures Keys(entries) == Keys(old(entries)) + {KeyOf(m, lights)}
      ensures forall k :: k != KeyOf(m, lights) ==> Lookup(entries, k) == Lookup(old(entries), k)
    {
      var key := KeyOf(m, lights);
      var i := LowerBound(entries, key);
      if i < |entries| && !KeyLess(key, entries[i].0) {
        LookupHit(entries, i, key);
        p := entries[i].1;
        return;
      }
      LookupMiss(entries, i, key);
      p := CachedProgram(buildCount, BuildShader(key, m.modifiers));
      var old_entries := entries;
      entries := entries[..i] + [(key, p)] + entries[i..];
      buildCount := buildCount + 1;
      InsertKeepsOrder(old_entries, i, key, p);
      InsertLookup(old_entries, i, key, p);
      InsertIds(old_entries, i, key, p, buildCount);
    }

    /** purgeUnusedShaders: walking the entries in key order, each check
      first asks the frame timer (unless forced) and stops while time
      remains; otherwise a program held by nobody but the cache is erased.
      `shared` names the programs held elsewhere; `timeRemaining(n)` is the
      timer's answer at the n-th check. */
    method PurgeUnusedShaders(timeRemaining: nat -> bool, force: bool, shared: set<int>) returns (ghost visited: nat)
      requires Valid()
      modifies this
      ensures Valid() && buildCount == old(buildCount)
      ensures visited <= |old(entries)|
      ensures entries == KeepShared(old(entries)[..visited], shared) + old(entries)[visited..]
      ensures forall n :: 0 <= n < visited ==> force || !timeRemaining(n)
      ensures visited < |old(entries)| ==> !force && timeRemaining(visited)
      ensures force ==> visited == |old(entries)|
    {
      var es := entries;
      var kept, i := PurgeWalk(es, timeRemaining, force, shared);
      visited := i;
      KeepSharedPrefixSorted(es, i, shared);
      KeepSharedIds(es, i, shared, buildCount);
      entries := kept + es[i..];
    }
  }

  /** The walk of purgeUnusedShaders over the cache in key order: it stops
      at the first step where time remains unless forced, and keeps the
      walked entries whose programs are shared. */
  method PurgeWalk(es: seq<Entry>, timeRemaining: nat -> bool, force: bool, shared: set<int>)
    returns (kept: seq<Entry>, visited: nat)
    ensures visited <= |es| && kept == KeepShared(es[..visited], shared)
    ensures forall n :: 0 <= n < visited ==> force || !timeRemaining(n)
    ensures visited < |es| ==> !force && timeRemaining(visited)
  {
    kept := [];
    visited := 0;
    while visited < |es|
      invariant visited <= |es|
      invariant kept == KeepShared(es[..visited], shared)
      invariant forall n :: 0 <= n < visited ==> force || !timeRemaining(n)
    {
      if !force && timeRemaining(visited) {
        return;
      }
      assert es[..visited + 1] == es[..visited] + [es[visited]];
      KeepSharedAppend(es[..visited], [es[visited]], shared);
      if es[visited].1.id in shared {
        kept := kept + [es[visited]];
      }
      visited := visited + 1;
    }
  }

  /** Purging keeps every program id below the bound. */
  lemma KeepSharedIds(es: seq<Entry>, i: nat, shared: set<int>, bound: int)
    requires i <= |es| && forall j :: 0 <= j < |es| ==> es[j].1.id < bound
    ensures forall j :: 0 <= j < |KeepShared(es[..i], shared) + es[i..]| ==> (KeepShared(es[..i], shared) + es[i..])[j].1.id < bound
  {
    var kept := KeepShared(es[..i], shared);
    var r := kept + es[i..];
    forall j | 0 <= j < |r|
      ensures r[j].1.id < bound
    {
      if j < |kept| {
        assert kept[j] in es[..i];
        var x :| 0 <= x < i && es[..i][x] == kept[j];
        assert es[x] == kept[j];
      } else {
        assert r[j] == es[i + j - |kept|];
      }
    }
  }

  /** The entries whose programs are held outside the cache, in order. */
  function KeepShared(entries: seq<Entry>, shared: set<int>): (r: seq<Entry>)
    ensures |r| <= |entries|
    ensures forall j :: 0 <= j < |r| ==> r[j].1.id in shared && r[j] in entries
  {
    if |entries| == 0 then []
    else if entries[0].1.id in shared then [entries[0]] + KeepShared(entries[1..], shared)
    else KeepShared(entries[1..], shared)
  }

  lemma {:induction false} KeepSharedAppend(a: seq<Entry>, b: seq<Entry>, shared: set<int>)
    ensures KeepShared(a + b, shared) == KeepShared(a, shared) + KeepShared(b, shared)
  {
    if |a| > 0 {
      assert (a + b)[1..] == a[1..] + b;
      KeepSharedAppend(a[1..], b, shared);
    } else {
      assert a + b == b;
    }
  }

  /** Every shared entry survives the filter. */
  lemma {:induction false} KeepSharedKeeps(entries: seq<Entry>, shared: set<int>, e: Entry)
    requires e in entries && e.1.id in shared
    ensures e in KeepShared(entries, shared)
  {
    if entries[0] != e {
      assert e in entries[1..];
      KeepSharedKeeps(entries[1..], shared, e);
    }
  }

  /** Dropping the first entry keeps a cache sorted. */
  lemma SortedTail(entries: seq<Entry>)
    requires Sorted(entries) && |entries| > 0
    ensures Sorted(entries[1..])
  {
    var t := entries[1..];
    forall a, b | 0 <= a < b < |t|
      ensures KeyLess(t[a].0, t[b].0)
    {
      assert t[a] == entries[a + 1] && t[b] == entries[b + 1];
    }
  }

  /** Filtering keeps a cache sorted. */
  lemma {:induction false} KeepSharedSorted(entries: seq<Entry>, shared: set<int>)
    requires Sorted(entries)
    ensures Sorted(KeepShared(entries, shared))
  {
    if |entries| > 0 {
      var t := entries[1..];
      SortedTail(entries);
      KeepSharedSorted(t, shared);
      var rt := KeepShared(t, shared);
      if entries[0].1.id in shared {
        HeadBelow(entries);
        ConsSorted(entries[0], rt, t);
      }
    }
  }

  lemma HeadBelow(entries: seq<Entry>)
    requires Sorted(entries) && |entries| > 0
    ensures forall y :: y in entries[1..] ==> KeyLess(entries[0].0, y.0)
  {
    forall y | y in entries[1..] ensures KeyLess(entries[0].0, y.0) {
      var j :| 0 <= j < |entries[1..]| && entries[1..][j] == y;
      assert entries[j + 1] == y;
    }
  }

  /** An entry below everything in t, put in front of a sorted selection
      from t, gives a sorted cache. */
  lemma ConsSorted(e: Entry, rt: seq<Entry>, t: seq<Entry>)
    requires Sorted(rt) && (forall x :: x in rt ==> x in t)
    requires forall y :: y in t ==> KeyLess(e.0, y.0)
    ensures Sorted([e] + rt)
  {
    var r := [e] + rt;
    forall a, b | 0 <= a < b < |r|
      ensures KeyLess(r[a].0, r[b].0)
    {
      assert r[b] == rt[b - 1] && rt[b - 1] in rt;
      if a > 0 {
        assert r[a] == rt[a - 1];
      }
    }
  }

  /** Purging a prefix keeps the cache sorted. */
  lemma KeepSharedPrefixSorted(entries: seq<Entry>, i: int, shared: set<int>)
    requires Sorted(entries) && 0 <= i <= |entries|
    ensures Sorted(KeepShared(entries[..i], shared) + entries[i..])
  {
    var pre := entries[..i];
    assert Sorted(pre) by {
      forall a, b | 0 <= a < b < |pre|
        ensures KeyLess(pre[a].0, pre[b].0)
      {
        assert pre[a] == entries[a] && pre[b] == entries[b];
      }
    }
    KeepSharedSorted(pre, shared);
    var kp := KeepShared(pre, shared);
    var r := kp + entries[i..];
    forall a, b | 0 <= a < b < |r|
      ensures KeyLess(r[a].0, r[b].0)
    {
      if b < |kp| {
        assert r[a] == kp[a] && r[b] == kp[b];
      } else if a < |kp| {
        assert kp[a] in pre;
        var x :| 0 <= x < |pre| && pre[x] == kp[a];
        assert r[a] == entries[x];
        assert r[b] == entries[i + b - |kp|];
      } else {
        assert r[a] == entries[i + a - |kp|] && r[b] == entries[i + b - |kp|];
      }
    }
  }

  /** A forced purge leaves only programs held elsewhere, and keeps all of
      them. */
  lemma ForcedPurge(old_entries: seq<Entry>, shared: set<int>, e: Entry)
    ensures var r := KeepShared(old_entries, shared);
      (e in r ==> e.1.id in shared && e in old_entries) && (e in old_entries && e.1.id in shared ==> e in r)
  {
    if e in old_entries && e.1.id in shared {
      KeepSharedKeeps(old_entries, shared, e);
    }
  }

  /** The position of the first entry whose key is not below k. */
  method LowerBound(entries: seq<Entry>, k: ShaderKey) returns (i: int)
    ensures 0 <= i <= |entries|
    ensures forall j :: 0 <= j < i ==> KeyLess(entries[j].0, k)
    ensures i < |entries| ==> !KeyLess(entries[i].0, k)
  {
    i := 0;
    while i < |entries| && KeyLess(entries[i].0, k)
      invariant 0 <= i <= |entries|
      invariant forall j :: 0 <= j < i ==> KeyLess(entries[j].0, k)
    {
      i := i + 1;
    }
  }

  /** An entry equivalent to k at the lower bound is the one Lookup finds. */
  lemma LookupHit(entries: seq<Entry>, i: int, k: ShaderKey)
    requires 0 <= i < |entries|
    requires forall j :: 0 <= j < i ==> KeyLess(entries[j].0, k)
    requires !KeyLess(entries[i].0, k) && !KeyLess(k, entries[i].0)
    ensures entries[i].0 == k && Lookup(entries, k) == Some(entries[i].1)
  {
    KeyOrderStrictTotal(k, entries[i].0, k);
    forall j | 0 <= j < i
      ensures entries[..i][j].0 != k
    {
      assert entries[..i][j] == entries[j];
    }
    LookupNone(entries[..i], k);
    assert entries == entries[..i] + entries[i..];
    LookupAppend(entries[..i], entries[i..], k);
  }

  /** No entry has k when the lower bound's key is above it. */
  lemma LookupMiss(entries: seq<Entry>, i: int, k: ShaderKey)
    requires Sorted(entries) && 0 <= i <= |entries|
    requires forall j :: 0 <= j < i ==> KeyLess(entries[j].0, k)
    requires i < |entries| ==> !KeyLess(entries[i].0, k) && KeyLess(k, entries[i].0)
    ensures forall j :: 0 <= j < |entries| ==> entries[j].0 != k
    ensures forall j :: i <= j < |entries| ==> KeyLess(k, entries[j].0)
    ensures Lookup(entries, k) == None
  {
    SortedSplit(entries, i, k);
    LookupNone(entries, k);
  }

  lemma InsertKeepsOrder(entries: seq<Entry>, i: int, k: ShaderKey, p: CachedProgram)
    requires Sorted(entries) && 0 <= i <= |entries|
    requires forall j :: 0 <= j < i ==> KeyLess(entries[j].0, k)
    requires forall j :: i <= j < |entries| ==> KeyLess(k, entries[j].0)
    ensures Sorted(entries[..i] + [(k, p)] + entries[i..])
  {
    var r := entries[..i] + [(k, p)] + entries[i..];
    forall a, b | 0 <= a < b < |r|
      ensures KeyLess(r[a].0, r[b].0)
    {
      if b < i {
        assert r[a] == entries[a] && r[b] == entries[b];
      } else if b == i {
        assert r[a] == entries[a];
      } else if a < i {
        assert r[a] == entries[a] && r[b] == entries[b - 1];
      } else if a == i {
        assert r[b] == entries[b - 1];
      } else {
        assert r[a] == entries[a - 1] && r[b] == entries[b - 1];
      }
    }
  }

  lemma InsertIds(entries: seq<Entry>, i: int, k: ShaderKey, p: CachedProgram, bound: int)
    requires 0 <= i <= |entries| && p.id < bound
    requires forall j :: 0 <= j < |entries| ==> entries[j].1.id < bound
    ensures var r := entries[..i] + [(k, p)] + entries[i..];
      forall j :: 0 <= j < |r| ==> r[j].1.id < bound
  {
    var r := entries[..i] + [(k, p)] + entries[i..];
    forall j | 0 <= j < |r|
      ensures r[j].1.id < bound
    {
      if j < i {
        assert r[j] == entries[j];
      } else if j > i {
        assert r[j] == entries[j - 1];
      }
    }
  }

  lemma InsertLookup(entries: seq<Entry>, i: int, k: ShaderKey, p: CachedProgram)
    requires 0 <= i <= |entries|
    requires forall j :: 0 <= j < |entries| ==> entries[j].0 != k
    ensures var r := entries[..i] + [(k, p)] + entries[i..];
      && Lookup(r, k) == Some(p)
      && Keys(r) == Keys(entries) + {k}
      && forall k' :: k' != k ==> Lookup(r, k') == Lookup(entries, k')
  {
    var r := entries[..i] + [(k, p)] + entries[i..];
    assert r == entries[..i] + ([(k, p)] + entries[i..]);
    assert entries == entries[..i] + entries[i..];
    LookupNone(entries[..i], k);
    LookupAppend(entries[..i], [(k, p)] + entries[i..], k);
    forall k' | k' != k
      ensures Lookup(r, k') == Lookup(entries, k')
    {
      LookupAppend(entries[..i], [(k, p)] + entries[i..], k');
      LookupAppend(entries[..i], entries[i..], k');
      assert ([(k, p)] + entries[i..])[1..] == entries[i..];
    }
    forall x | x in Keys(r)
      ensures x in Keys(entries) + {k}
    {
      var j :| 0 <= j < |r| && r[j].0 == x;
      if j < i {
        assert r[j] == entries[j];
      } else if j > i {
        assert r[j] == entries[j - 1];
      }
    }
    forall x | x in Keys(entries) + {k}
      ensures x in Keys(r)
    {
      if x == k {
        assert r[i].0 == k;
      } else {
        var j :| 0 <= j < |entries| && entries[j].0 == x;
        if j < i {
          assert r[j] == entries[j];
        } else {
          assert r[j + 1] == entries[j];
        }
      }
    }
  }
}
