/** The OpenGL material substrate of VROMaterialSubstrateOpenGL: the
    choice of vertex and fragment shader for a material's lighting model,
    the textures and samplers that choice binds, the process-wide pool of
    shared programs keyed by "vertex_fragment", the uniforms a new program
    registers and the hash of the bound textures used for sorting. */
module MaterialSubstrate {
  import opened Wrappers
  import SP = ShaderProgram

  datatype ContentsType = Fixed | ContentsTexture2D | ContentsTextureCube

  datatype LightingModel = Constant | Blinn | Lambert | Phong | PhysicallyBased

  type TextureId = nat

  /** A material visual: what it holds and, when it holds a texture, that
      texture's GL name. */
  datatype Visual = Visual(contents: ContentsType, texture: TextureId)

  datatype Material = Material(lightingModel: LightingModel, diffuse: Visual, specular: Visual, reflective: Visual)

  /** The programs a load picks and what it binds: textures and samplers
      are appended in step, and Phong and Blinn add a shininess uniform. */
  datatype ShaderChoice = ShaderChoice(
    vertexShader: string, fragmentShader: string,
    textures: seq<TextureId>, samplers: seq<string>, shininess: bool)

  /** The material visual a sampler name reads. */
  function SamplerVisual(m: Material, sampler: string): Visual
  {
    if sampler == "specular_texture" then m.specular
    else if sampler == "reflect_texture" then m.reflective
    else m.diffuse
  }

  /** Each bound texture belongs to the visual its sampler reads. */
  predicate Paired(m: Material, c: ShaderChoice)
  {
    && |c.textures| == |c.samplers|
    && forall i :: 0 <= i < |c.samplers| ==> c.textures[i] == SamplerVisual(m, c.samplers[i]).texture
  }

  /** loadConstantLighting: a fixed colour needs no texture, a 2D texture
      and anything else are bound to the single "sampler". */
  function ConstantShader(m: Material): (c: ShaderChoice)
    ensures c.vertexShader == "constant_vsh" && !c.shininess
    ensures c.fragmentShader == "constant_c_fsh" <==> m.diffuse.contents == Fixed
    ensures c.fragmentShader == "constant_t_fsh" <==> m.diffuse.contents == ContentsTexture2D
    ensures c.fragmentShader == "constant_q_fsh" <==> m.diffuse.contents == ContentsTextureCube
    ensures m.diffuse.contents == Fixed ==> c.textures == [] && c.samplers == []
    ensures m.diffuse.contents != Fixed ==> c.textures == [m.diffuse.texture] && c.samplers == ["sampler"]
  {
    match m.diffuse.contents
    case Fixed => ShaderChoice("constant_vsh", "constant_c_fsh", [], [], false)
    case ContentsTexture2D => ShaderChoice("constant_vsh", "constant_t_fsh", [m.diffuse.texture], ["sampler"], false)
    case ContentsTextureCube => ShaderChoice("constant_vsh", "constant_q_fsh", [m.diffuse.texture], ["sampler"], false)
  }

  /** The fragment shader naming scheme: the lighting prefix, "c" for a
      fixed diffuse colour or "t" for a diffuse texture, "_reflect" with a
      reflective cube map. */
  function FragmentName(prefix: string, textured: bool, reflect: bool): string
  {
    prefix + "_" + (if textured then "t" else "c") + (if reflect then "_reflect" else "") + "_fsh"
  }

  /** The four literal names the Lambert loader uses follow the scheme. */
  lemma LambertNamed(reflect: bool)
    ensures FragmentName("lambert", false, reflect) == if reflect then "lambert_c_reflect_fsh" else "lambert_c_fsh"
    ensures FragmentName("lambert", true, reflect) == if reflect then "lambert_t_reflect_fsh" else "lambert_t_fsh"
  {
  }

  /** The literal suffixes the Phong and Blinn loaders append to their
      prefix follow the scheme. */
  lemma SpecularNamed(prefix: string, reflect: bool)
    ensures FragmentName(prefix, false, reflect) == prefix + if reflect then "_c_reflect_fsh" else "_c_fsh"
    ensures FragmentName(prefix, true, reflect) == prefix + if reflect then "_t_reflect_fsh" else "_t_fsh"
  {
    var r: string := if reflect then "_reflect" else "";
    assert prefix + "_" + "c" + r + "_fsh" == prefix + ("_" + "c" + r + "_fsh");
    assert prefix + "_" + "t" + r + "_fsh" == prefix + ("_" + "t" + r + "_fsh");
  }

  /** loadLambertLighting: a textured diffuse is bound to "texture", and a
      cube-map reflective to "reflect_texture"; the fragment shader names
      both choices. */
  function LambertShader(m: Material): (c: ShaderChoice)
    ensures c.vertexShader == "lambert_vsh" && !c.shininess
    ensures "reflect_texture" in c.samplers <==> m.reflective.contents == ContentsTextureCube
    ensures "texture" in c.samplers <==> m.diffuse.contents != Fixed
    ensures |c.samplers| == (if m.diffuse.contents != Fixed then 1 else 0)
                          + (if m.reflective.contents == ContentsTextureCube then 1 else 0)
    ensures c.fragmentShader == FragmentName("lambert", m.diffuse.contents != Fixed, m.reflective.contents == ContentsTextureCube)
  {
    LambertNamed(m.reflective.contents == ContentsTextureCube);
    var reflect := m.reflective.contents == ContentsTextureCube;
    var (rt, rs) := if reflect then ([m.reflective.texture], ["reflect_texture"]) else ([], []);
    if m.diffuse.contents == Fixed then
      ShaderChoice("lambert_vsh", if reflect then "lambert_c_reflect_fsh" else "lambert_c_fsh", rt, rs, false)
    else
      ShaderChoice("lambert_vsh", if reflect then "lambert_t_reflect_fsh" else "lambert_t_fsh",
                   [m.diffuse.texture] + rt, ["texture"] + rs, false)
  }

  /** loadPhongLighting and loadBlinnLighting (prefix "phong" or "blinn"):
      without a 2D specular map the material is lit as Lambert; otherwise
      the textures are the diffuse one (when textured), the specular map
      and the reflective cube map (when present), in that order. */
  function SpecularShader(prefix: string, m: Material): (c: ShaderChoice)
    ensures m.specular.contents != ContentsTexture2D ==> c == LambertShader(m)
    ensures m.specular.contents == ContentsTexture2D ==>
      && c.vertexShader == prefix + "_vsh" && c.shininess
      && c.fragmentShader == FragmentName(prefix, m.diffuse.contents != Fixed, m.reflective.contents == ContentsTextureCube)
      && c.textures == (if m.diffuse.contents == Fixed then [] else [m.diffuse.texture]) + [m.specular.texture]
           + (if m.reflective.contents == ContentsTextureCube then [m.reflective.texture] else [])
  {
    if m.specular.contents != ContentsTexture2D then LambertShader(m)
    else
      SpecularNamed(prefix, m.reflective.contents == ContentsTextureCube);
      var reflect := m.reflective.contents == ContentsTextureCube;
      var (rt, rs) := if reflect then ([m.reflective.texture], ["reflect_texture"]) else ([], []);
      if m.diffuse.contents == Fixed then
        ShaderChoice(prefix + "_vsh", if reflect then prefix + "_c_reflect_fsh" else prefix + "_c_fsh",
                     [m.specular.texture] + rt, ["specular_texture"] + rs, true)
      else
        ShaderChoice(prefix + "_vsh", if reflect then prefix + "_t_reflect_fsh" else prefix + "_t_fsh",
                     [m.diffuse.texture, m.specular.texture] + rt, ["diffuse_texture", "specular_texture"] + rs, true)
  }

  /** The constructor's dispatch on the lighting model: physically based
      materials get no program here. */
  function ChooseShader(m: Material): (r: Option<ShaderChoice>)
    ensures r.None? <==> m.lightingModel == PhysicallyBased
  {
    match m.lightingModel
    case Constant => Some(ConstantShader(m))
    case Lambert => Some(LambertShader(m))
    case Phong => Some(SpecularShader("phong", m))
    case Blinn => Some(SpecularShader("blinn", m))
    case PhysicallyBased => None
  }

  /** Whatever the lighting model, the textures and samplers grow in step
      and each texture is the one its sampler reads. */
  lemma ChoicePaired(m: Material)
    requires m.lightingModel != PhysicallyBased
    ensures Paired(m, ChooseShader(m).value)
  {
    match m.lightingModel
    case Constant => assert SamplerVisual(m, "sampler") == m.diffuse;
    case Lambert => LambertPaired(m);
    case Phong => SpecularPaired("phong", m);
    case Blinn => SpecularPaired("blinn", m);
  }

  lemma LambertPaired(m: Material)
    ensures Paired(m, LambertShader(m))
  {
    assert SamplerVisual(m, "reflect_texture") == m.reflective;
    assert SamplerVisual(m, "texture") == m.diffuse;
  }

  lemma SpecularPaired(prefix: string, m: Material)
    ensures Paired(m, SpecularShader(prefix, m))
  {
    if m.specular.contents != ContentsTexture2D {
      LambertPaired(m);
    } else {
      assert SamplerVisual(m, "reflect_texture") == m.reflective;
      assert SamplerVisual(m, "specular_texture") == m.specular;
      assert SamplerVisual(m, "diffuse_texture") == m.diffuse;
    }
  }

  /** A Phong or Blinn material without a 2D specular map is indistinguishable
      from its Lambert twin, and one with it always carries shininess. */
  lemma SpecularFallback(m: Material)
    requires m.lightingModel in {Phong, Blinn}
    ensures var c := ChooseShader(m).value;
      && (m.specular.contents != ContentsTexture2D ==> c == ChooseShader(m.(lightingModel := Lambert)).value)
      && (c.shininess <==> m.specular.contents == ContentsTexture2D)
  {
  }

  /** The pool key of a program. */
  function PoolKey(vertexShader: string, fragmentShader: string): string
  {
    vertexShader + "_" + fragmentShader
  }

  /** The process-wide map of shared programs. */
  class ProgramPool {
    var programs: map<string, SP.Program>

    constructor ()
      ensures programs == map[] && Valid()
    {
      programs := map[];
    }

    /** Every pooled program is stored under its own shaders' key. */
    predicate Valid()
      reads this
    {
      forall name :: name in programs ==> PoolKey(programs[name].vertexShader, programs[name].fragmentShader) == name
    }

    /** getPooledShader: returns the program stored under the shaders' key;
        only a program created by this call receives the samplers. */
    method GetPooledShader(vertexShader: string, fragmentShader: string, samplers: seq<string>,
                           assets: string -> string) returns (p: SP.Program)
      requires Valid()
      requires assets(vertexShader) != [] && assets(fragmentShader) != []
      modifies this
      ensures Valid()
      ensures PoolKey(vertexShader, fragmentShader) in programs
      ensures p == programs[PoolKey(vertexShader, fragmentShader)]
      ensures PoolKey(vertexShader, fragmentShader) in old(programs) ==> programs == old(programs)
      ensures PoolKey(vertexShader, fragmentShader) !in old(programs) ==>
        && fresh(p) && programs == old(programs)[PoolKey(vertexShader, fragmentShader) := p]
        && p.samplers == samplers && p.vertexShader == vertexShader && p.fragmentShader == fragmentShader
        && p.capabilities == {SP.TexMask, SP.NormMask} && !p.IsHydrated() && p.uniforms == []
        && p.vertexSource != [] && p.fragmentSource != [] && !p.failedToLink
    {
      var name := PoolKey(vertexShader, fragmentShader);
      if name in programs {
        return programs[name];
      }
      p := new SP.Program.FromShaders(vertexShader, fragmentShader, {SP.TexMask, SP.NormMask}, assets);
      var i := 0;
      while i < |samplers|
        invariant 0 <= i <= |samplers|
        invariant p.samplers == samplers[..i] && p.uniforms == [] && p.program == 0
        invariant p.capabilities == {SP.TexMask, SP.NormMask} && !p.failedToLink
        invariant programs == old(programs)
      {
        p.AddSampler(samplers[i]);
        i := i + 1;
      }
      programs := programs[name := p];
    }
  }

  /** A uniform as addUniforms registers it: its type and its name, with
      array size 1. */
  type UniformSpec = (SP.ShaderProperty, string)

  function Built(specs: seq<UniformSpec>): seq<SP.Uniform>
  {
    seq(|specs|, i requires 0 <= i < |specs| => SP.NewUniform(specs[i].1, specs[i].0, 1))
  }

  lemma BuiltAppend(a: seq<UniformSpec>, b: seq<UniformSpec>)
    ensures Built(a + b) == Built(a) + Built(b)
  {
  }

  /** The uniforms of one light slot, named "lighting.lights[slot].field". */
  function LightSpecs(slot: nat): (u: seq<UniformSpec>)
    requires slot < 10
    ensures |u| == 9
  {
    var prefix := "lighting.lights[" + [('0' as int + slot) as char] + "].";
    [ (SP.Int, prefix + "type"),
      (SP.Vec3, prefix + "position"),
      (SP.Vec3, prefix + "direction"),
      (SP.Vec3, prefix + "color"),
      (SP.Float, prefix + "attenuation_start_distance"),
      (SP.Float, prefix + "attenuation_end_distance"),
      (SP.Float, prefix + "attenuation_falloff_exp"),
      (SP.Float, prefix + "spot_inner_angle"),
      (SP.Float, prefix + "spot_outer_angle") ]
  }

  const MaxLights := 4

  /** The light slots 0 .. n-1, in order. */
  function LightSlotSpecs(n: nat): (u: seq<UniformSpec>)
    requires n <= 10
    ensures |u| == 9 * n
  {
    if n == 0 then [] else LightSlotSpecs(n - 1) + LightSpecs(n - 1)
  }

  /** Slot k of the first n light slots occupies positions 9k .. 9k+8. */
  lemma {:induction false} LightSlotAt(n: nat, slot: nat)
    requires slot < n <= 10
    ensures LightSlotSpecs(n)[9 * slot .. 9 * slot + 9] == LightSpecs(slot)
  {
    if slot < n - 1 {
      LightSlotAt(n - 1, slot);
      assert LightSlotSpecs(n)[9 * slot .. 9 * slot + 9] == LightSlotSpecs(n - 1)[9 * slot .. 9 * slot + 9];
    }
  }

  function GlobalSpecs(): seq<UniformSpec>
  {
    [(SP.Int, "lighting.num_lights"), (SP.Vec3, "lighting.ambient_light_color")]
  }

  function TransformSpecs(): seq<UniformSpec>
  {
    [ (SP.Mat4, "normal_matrix"), (SP.Mat4, "model_matrix"), (SP.Mat4, "modelview_matrix"),
      (SP.Mat4, "modelview_projection_matrix"), (SP.Vec3, "camera_position"), (SP.Vec3, "ambient_light_color") ]
  }

  function MaterialSpecs(): seq<UniformSpec>
  {
    [ (SP.Vec4, "material_diffuse_surface_color"), (SP.Float, "material_diffuse_intensity"),
      (SP.Float, "material_alpha") ]
  }

  /** Everything addUniforms registers, in registration order. */
  function StandardSpecs(): seq<UniformSpec>
  {
    GlobalSpecs() + LightSlotSpecs(MaxLights) + TransformSpecs() + MaterialSpecs()
  }

  function StandardUniforms(): seq<SP.Uniform>
  {
    Built(StandardSpecs())
  }

  /** addUniforms registers 2 global uniforms, 9 for each of the 4 light
      slots, 6 transform and camera uniforms and the 3 material uniforms
      last. */
  lemma StandardLayout(slot: nat)
    requires slot < MaxLights
    ensures |StandardSpecs()| == 2 + 9 * MaxLights + 6 + 3
    ensures StandardSpecs()[..2] == GlobalSpecs()
    ensures StandardSpecs()[2 + 9 * slot .. 2 + 9 * slot + 9] == LightSpecs(slot)
    ensures StandardSpecs()[44..] == MaterialSpecs()
  {
    var g, l, t, m := GlobalSpecs(), LightSlotSpecs(4), TransformSpecs(), MaterialSpecs();
    LightSlotAt(4, slot);
    Parts(g, l, t, m);
  }

  lemma Parts<T>(a: seq<T>, b: seq<T>, c: seq<T>, d: seq<T>)
    ensures var s := a + b + c + d;
      && s[..|a|] == a
      && s[|a| + |b| + |c|..] == d
      && forall i, j :: 0 <= i <= j <= |b| ==> s[|a| + i .. |a| + j] == b[i..j]
  {
  }

  /** The first two letters are not "ma". */
  predicate NotMa(name: string)
  {
    |name| < 2 || name[0] != 'm' || name[1] != 'a'
  }

  /** No name in the list starts with "ma". */
  predicate AllNotMa(specs: seq<UniformSpec>)
  {
    forall i :: 0 <= i < |specs| ==> NotMa(specs[i].1)
  }

  lemma AllNotMaAppend(a: seq<UniformSpec>, b: seq<UniformSpec>)
    requires AllNotMa(a) && AllNotMa(b)
    ensures AllNotMa(a + b)
  {
    forall i | 0 <= i < |a + b|
      ensures NotMa((a + b)[i].1)
    {
      if i >= |a| {
        assert (a + b)[i] == b[i - |a|];
      }
    }
  }

  /** Every name of a light slot starts with "lighting". */
  lemma LightSpecsNotMa(slot: nat)
    requires slot < 10
    ensures AllNotMa(LightSpecs(slot))
  {
    var prefix := "lighting.lights[" + [('0' as int + slot) as char] + "].";
    assert prefix[0] == 'l';
    forall i | 0 <= i < 9
      ensures LightSpecs(slot)[i].1[0] == 'l'
    {
    }
  }

  lemma {:induction false} LightSlotsNotMa(n: nat)
    requires n <= 10
    ensures AllNotMa(LightSlotSpecs(n))
  {
    if n > 0 {
      LightSlotsNotMa(n - 1);
      LightSpecsNotMa(n - 1);
      AllNotMaAppend(LightSlotSpecs(n - 1), LightSpecs(n - 1));
    }
  }

  /** Every uniform registered before the material ones has a name that
      does not start with "ma". */
  lemma LeadingNamesNotMa()
    ensures forall i :: 0 <= i < 44 ==> NotMa(StandardSpecs()[i].1)
  {
    var g, l, t := GlobalSpecs(), LightSlotSpecs(4), TransformSpecs();
    assert AllNotMa(g) && AllNotMa(t);
    LightSlotsNotMa(4);
    AllNotMaAppend(g, l);
    AllNotMaAppend(g + l, t);
    assert StandardSpecs() == (g + l + t) + MaterialSpecs();
    forall i | 0 <= i < 44
      ensures NotMa(StandardSpecs()[i].1)
    {
      assert StandardSpecs()[i] == (g + l + t)[i];
    }
  }

  /** A name absent from a prefix is found in the rest, shifted by the
      prefix length. */
  lemma {:induction false} FirstIndexSkip(a: seq<SP.Uniform>, b: seq<SP.Uniform>, name: string)
    requires forall i :: 0 <= i < |a| ==> a[i].name != name
    requires SP.FirstIndex(b, name) >= 0
    ensures SP.FirstIndex(a + b, name) == |a| + SP.FirstIndex(b, name)
  {
    if |a| > 0 {
      assert (a + b)[0] == a[0];
      assert (a + b)[1..] == a[1..] + b;
      FirstIndexSkip(a[1..], b, name);
    } else {
      assert a + b == b;
    }
  }

  /** The uniforms addUniforms registers before the material ones have
      names that do not start with "ma". */
  lemma LeadingUniformsNotMa()
    ensures |StandardUniforms()| == 47
    ensures forall i :: 0 <= i < 44 ==> NotMa(StandardUniforms()[i].name)
    ensures StandardUniforms()[44..] == Built(MaterialSpecs())
  {
    StandardLayout(0);
    LeadingNamesNotMa();
    var s := StandardSpecs();
    assert s == s[..44] + MaterialSpecs();
    BuiltAppend(s[..44], MaterialSpecs());
  }

  /** A name starting with "ma", placed at k after names that do not start
      with "ma" and after no equal name, is first found at k. */
  lemma FoundAt(u: seq<SP.Uniform>, name: string, k: int)
    requires 44 <= k < |u| && u[k].name == name && !NotMa(name)
    requires forall j :: 0 <= j < 44 ==> NotMa(u[j].name)
    requires forall j :: 44 <= j < k ==> u[j].name != name
    ensures SP.FirstIndex(u, name) == k
  {
  }

  /** The names a material looks up when it reuses a pooled program are
      found exactly where addUniforms put them, whatever was registered
      after them. */
  lemma MaterialUniformsFound(more: seq<SP.Uniform>)
    ensures SP.FirstIndex(StandardUniforms() + more, "material_diffuse_surface_color") == 44
    ensures SP.FirstIndex(StandardUniforms() + more, "material_diffuse_intensity") == 45
    ensures SP.FirstIndex(StandardUniforms() + more, "material_alpha") == 46
  {
    MaterialNamesPlaced(more);
    MaterialNamesDistinct();
    FoundThree(StandardUniforms() + more,
      "material_diffuse_surface_color", "material_diffuse_intensity", "material_alpha");
  }

  lemma MaterialNamesDistinct()
    ensures !NotMa("material_diffuse_surface_color") && !NotMa("material_diffuse_intensity") && !NotMa("material_alpha")
    ensures "material_diffuse_surface_color" != "material_diffuse_intensity"
    ensures "material_diffuse_surface_color" != "material_alpha"
    ensures "material_diffuse_intensity" != "material_alpha"
  {
    assert |"material_diffuse_surface_color"| == 30;
    assert |"material_diffuse_intensity"| == 26;
    assert |"material_alpha"| == 14;
  }

  /** Three distinct names starting with "ma" at 44, 45 and 46, after
      names that do not start with "ma", are first found there. */
  lemma FoundThree(u: seq<SP.Uniform>, a: string, b: string, c: string)
    requires |u| >= 47 && forall j :: 0 <= j < 44 ==> NotMa(u[j].name)
    requires u[44].name == a && u[45].name == b && u[46].name == c
    requires !NotMa(a) && !NotMa(b) && !NotMa(c) && a != b && a != c && b != c
    ensures SP.FirstIndex(u, a) == 44 && SP.FirstIndex(u, b) == 45 && SP.FirstIndex(u, c) == 46
  {
    FoundAt(u, a, 44);
    FoundAt(u, b, 45);
    FoundAt(u, c, 46);
  }

  lemma MaterialNamesPlaced(more: seq<SP.Uniform>)
    ensures var u := StandardUniforms() + more;
      && |u| >= 47
      && (forall j :: 0 <= j < 44 ==> NotMa(u[j].name))
      && u[44].name == "material_diffuse_surface_color"
      && u[45].name == "material_diffuse_intensity"
      && u[46].name == "material_alpha"
  {
    LeadingUniformsNotMa();
    var u := StandardUniforms() + more;
    assert u[44..47] == Built(MaterialSpecs());
  }

  const ShininessUniform := SP.NewUniform("material_shininess", SP.Float, 1)

  /** Where the substrate finds the uniforms it writes (-1 for none). */
  datatype UniformSlots = UniformSlots(diffuseSurfaceColor: int, diffuseIntensity: int, alpha: int, shininess: int)

  /** The branch for a program that is not built yet: addUniforms, the
      shininess uniform of Phong and Blinn, then hydrate. */
  method RegisterUniforms(p: SP.Program, shininess: bool, gl: SP.GLBuild) returns (slots: UniformSlots)
    requires !p.IsHydrated() && p.vertexSource != [] && p.fragmentSource != []
    modifies p
    ensures p.uniforms == old(p.uniforms) + StandardUniforms() + (if shininess then [ShininessUniform] else [])
    ensures slots == RegisteredSlots(|old(p.uniforms)|, shininess)
    ensures p.samplers == old(p.samplers)
  {
    var n := |p.uniforms|;
    AddUniforms(p);
    slots := UniformSlots(n + 44, n + 45, n + 46, -1);
    if shininess {
      p.AddUniform(SP.Float, 1, "material_shininess");
      slots := slots.(shininess := n + 47);
    }
    var _, _ := p.Hydrate(gl);
  }

  /** Where addUniforms and the shininess uniform land on a program that
      held `n` uniforms before. */
  function RegisteredSlots(n: nat, shininess: bool): UniformSlots
  {
    UniformSlots(n + 44, n + 45, n + 46, if shininess then n + 47 else -1)
  }

  /** Where a lookup by name finds the substrate's uniforms (-1 when absent). */
  function FoundSlots(uniforms: seq<SP.Uniform>, shininess: bool): UniformSlots
  {
    UniformSlots(
      SP.FirstIndex(uniforms, "material_diffuse_surface_color"),
      SP.FirstIndex(uniforms, "material_diffuse_intensity"),
      SP.FirstIndex(uniforms, "material_alpha"),
      if shininess then SP.FirstIndex(uniforms, "material_shininess") else -1)
  }

  /** A program the substrate registered from scratch is found by name at
      exactly the slots registration reported, so reusing it from the pool
      writes the same uniforms. */
  lemma ReusedSlotsAgree(shininess: bool)
    ensures FoundSlots(StandardUniforms() + (if shininess then [ShininessUniform] else []), shininess)
      == RegisteredSlots(0, shininess)
  {
    var more: seq<SP.Uniform> := if shininess then [ShininessUniform] else [];
    MaterialUniformsFound(more);
    if shininess {
      ShininessFoundLast();
    }
  }

  /** Phong's and Blinn's shininess uniform, registered right after the
      standard ones, is found there. */
  lemma ShininessFoundLast()
    ensures SP.FirstIndex(StandardUniforms() + [ShininessUniform], "material_shininess") == 47
  {
    var u := StandardUniforms() + [ShininessUniform];
    MaterialNamesPlaced([ShininessUniform]);
    assert |"material_shininess"| == 18;
    assert |"material_diffuse_surface_color"| == 30;
    assert |"material_diffuse_intensity"| == 26;
    assert |"material_alpha"| == 14;
    assert u[47] == ShininessUniform;
    FoundAt(u, "material_shininess", 47);
  }

  /** loadUniforms, for a program another material has already built. */
  method LookUpUniforms(p: SP.Program, shininess: bool) returns (slots: UniformSlots)
    ensures slots == FoundSlots(p.uniforms, shininess)
  {
    var color := p.GetUniformIndex("material_diffuse_surface_color");
    var intensity := p.GetUniformIndex("material_diffuse_intensity");
    var alpha := p.GetUniformIndex("material_alpha");
    var shine := -1;
    if shininess {
      shine := p.GetUniformIndex("material_shininess");
    }
    slots := UniformSlots(color, intensity, alpha, shine);
  }

  const MaxId: int := 0x1_0000_0000

  /** hashTextures: the fold h := 31 * h + id in 32-bit unsigned arithmetic. */
  function HashOf(textures: seq<TextureId>): (h: int)
    ensures 0 <= h < MaxId
  {
    if |textures| == 0 then 0
    else (31 * HashOf(textures[..|textures| - 1]) + textures[|textures| - 1]) % MaxId
  }

  /** The polynomial sum of ids in base 31, without wrap-around. */
  function Poly(textures: seq<TextureId>): int
  {
    if |textures| == 0 then 0
    else 31 * Poly(textures[..|textures| - 1]) + textures[|textures| - 1]
  }

  /** The hash is the base-31 polynomial of the texture ids reduced modulo
      2^32: wrapping at each step loses nothing against wrapping once. */
  lemma {:induction false} HashIsPolynomial(textures: seq<TextureId>)
    ensures HashOf(textures) == Poly(textures) % MaxId
  {
    if |textures| > 0 {
      var front := textures[..|textures| - 1];
      HashIsPolynomial(front);
      ModStep(Poly(front), textures[|textures| - 1]);
    }
  }

  lemma ModStep(a: int, x: int)
    ensures (31 * (a % MaxId) + x) % MaxId == (31 * a + x) % MaxId
  {
    var q := a / MaxId;
    assert a == q * MaxId + a % MaxId;
    assert 31 * a + x == (31 * q) * MaxId + (31 * (a % MaxId) + x);
  }

  method HashTextures(textures: seq<TextureId>) returns (h: int)
    ensures h == HashOf(textures)
  {
    h := 0;
    var i := 0;
    while i < |textures|
      invariant 0 <= i <= |textures|
      invariant h == HashOf(textures[..i])
    {
      assert textures[..i + 1][..i] == textures[..i];
      h := (31 * h + textures[i]) % MaxId;
      i := i + 1;
    }
    assert textures[..i] == textures;
  }

  const GL_LEQUAL := 0x0203
  const GL_ALWAYS := 0x0207

  /** The depth state bindDepthSettings applies: the depth mask follows
      depth writing, and the test is LEQUAL when reading depth and ALWAYS
      otherwise. */
  function DepthSettings(writesDepth: bool, readsDepth: bool): (r: (bool, int))
    ensures r.0 == writesDepth
    ensures r.1 == GL_LEQUAL <==> readsDepth
    ensures r.1 == GL_ALWAYS <==> !readsDepth
  {
    (writesDepth, if readsDepth then GL_LEQUAL else GL_ALWAYS)
  }

  class Substrate {
    const lightingModel: LightingModel
    var textures: seq<TextureId>
    var program: SP.Program?
    var slots: UniformSlots

    /** The constructor: picks the shaders for the lighting model, takes the
        pooled program for them and either registers the uniforms and builds
        the program, when it is not built yet, or looks the uniforms up. */
    constructor (m: Material, pool: ProgramPool, assets: string -> string, gl: SP.GLBuild)
      requires pool.Valid()
      requires ChooseShader(m).Some? ==>
        assets(ChooseShader(m).value.vertexShader) != [] && assets(ChooseShader(m).value.fragmentShader) != []
      requires forall name :: name in pool.programs ==>
        pool.programs[name].vertexSource != [] && pool.programs[name].fragmentSource != []
      modifies pool, pool.programs.Values
      ensures pool.Valid() && lightingModel == m.lightingModel
      ensures ChooseShader(m).None? ==> program == null && textures == [] && pool.programs == old(pool.programs)
      ensures ChooseShader(m).Some? ==>
        textures == ChooseShader(m).value.textures
        && LoadedWith(ChooseShader(m).value, program, slots, pool.programs, old(pool.programs))
      ensures ChooseShader(m).Some? ==>
        var c := ChooseShader(m).value;
        var key := PoolKey(c.vertexShader, c.fragmentShader);
        key in old(pool.programs) && old(pool.programs[key].IsHydrated()) ==>
          program.uniforms == old(pool.programs[key].uniforms) && slots == FoundSlots(program.uniforms, c.shininess)
      ensures ChooseShader(m).Some? ==>
        var c := ChooseShader(m).value;
        var key := PoolKey(c.vertexShader, c.fragmentShader);
        key in old(pool.programs) && !old(pool.programs[key].IsHydrated()) ==>
          var before := old(pool.programs[key].uniforms);
          program.uniforms == before + StandardUniforms() + (if c.shininess then [ShininessUniform] else [])
          && slots == RegisteredSlots(|before|, c.shininess)
    {
      lightingModel := m.lightingModel;
      var choice := ChooseShader(m);
      if choice.Some? {
        textures := choice.value.textures;
        var p, s := LoadProgram(choice.value, pool, assets, gl);
        program, slots := p, s;
      } else {
        textures := [];
        program := null;
        slots := UniformSlots(-1, -1, -1, -1);
      }
    }

    /** updateSortKey's texture component. */
    method TextureHash() returns (h: int)
      ensures h == HashOf(textures)
    {
      h := HashTextures(textures);
    }
  }

  /** A material's program is the pooled one for its shaders; when the
      pool did not hold it before, it was created for this material with
      its samplers and the standard uniforms, and the material's slots are
      where it registered them. */
  ghost predicate LoadedWith(c: ShaderChoice, p: SP.Program?, slots: UniformSlots,
                             programs: map<string, SP.Program>, before: map<string, SP.Program>)
    reads p
  {
    var key := PoolKey(c.vertexShader, c.fragmentShader);
    && key in programs && p == programs[key]
    && (key !in before ==>
          && p.samplers == c.samplers
          && p.uniforms == StandardUniforms() + (if c.shininess then [ShininessUniform] else [])
          && slots == UniformSlots(44, 45, 46, if c.shininess then 47 else -1))
  }

  /** The shared part of the load*Lighting methods: take the pooled
      program for the chosen shaders, then register the uniforms and build
      it when it is not built yet, or look the uniforms up otherwise. */
  method LoadProgram(c: ShaderChoice, pool: ProgramPool, assets: string -> string, gl: SP.GLBuild)
    returns (p: SP.Program, slots: UniformSlots)
    requires pool.Valid()
    requires assets(c.vertexShader) != [] && assets(c.fragmentShader) != []
    requires forall name :: name in pool.programs ==>
      pool.programs[name].vertexSource != [] && pool.programs[name].fragmentSource != []
    modifies pool, pool.programs.Values
    ensures pool.Valid()
    ensures LoadedWith(c, p, slots, pool.programs, old(pool.programs))
    ensures var key := PoolKey(c.vertexShader, c.fragmentShader);
      key in old(pool.programs) && old(pool.programs[key].IsHydrated()) ==>
        p.uniforms == old(pool.programs[key].uniforms) && slots == FoundSlots(p.uniforms, c.shininess)
    ensures var key := PoolKey(c.vertexShader, c.fragmentShader);
      key in old(pool.programs) && !old(pool.programs[key].IsHydrated()) ==>
        var before := old(pool.programs[key].uniforms);
        p.uniforms == before + StandardUniforms() + (if c.shininess then [ShininessUniform] else [])
        && slots == RegisteredSlots(|before|, c.shininess)
  {
    p := pool.GetPooledShader(c.vertexShader, c.fragmentShader, c.samplers, assets);
    if !p.IsHydrated() {
      slots := RegisterUniforms(p, c.shininess, gl);
    } else {
      slots := LookUpUniforms(p, c.shininess);
    }
  }

  /** addUniforms: registers the standard uniforms on a program, the light
      slots one after another. */
  method AddUniforms(p: SP.Program)
    modifies p
    ensures p.uniforms == old(p.uniforms) + StandardUniforms()
    ensures p.samplers == old(p.samplers) && p.program == old(p.program) && p.failedToLink == old(p.failedToLink)
  {
    AddList(p, GlobalSpecs());
    AddLightSlots(p);
    AddList(p, TransformSpecs() + MaterialSpecs());
    StandardBuilt();
    AppendThree(old(p.uniforms), Built(GlobalSpecs()), Built(LightSlotSpecs(MaxLights)),
                Built(TransformSpecs() + MaterialSpecs()), StandardUniforms());
  }

  /** The light slots 0 .. 3, one after another. */
  method AddLightSlots(p: SP.Program)
    modifies p
    ensures p.uniforms == old(p.uniforms) + Built(LightSlotSpecs(MaxLights))
    ensures p.samplers == old(p.samplers) && p.program == old(p.program) && p.failedToLink == old(p.failedToLink)
  {
    var i := 0;
    while i < MaxLights
      invariant 0 <= i <= MaxLights
      invariant p.uniforms == old(p.uniforms) + Built(LightSlotSpecs(i))
      invariant p.samplers == old(p.samplers) && p.program == old(p.program) && p.failedToLink == old(p.failedToLink)
    {
      AddList(p, LightSpecs(i));
      LightSlotBuilt(i);
      AppendTwo(old(p.uniforms), Built(LightSlotSpecs(i)), Built(LightSpecs(i)), Built(LightSlotSpecs(i + 1)));
      i := i + 1;
    }
  }

  lemma LightSlotBuilt(i: nat)
    requires i < 10
    ensures Built(LightSlotSpecs(i)) + Built(LightSpecs(i)) == Built(LightSlotSpecs(i + 1))
  {
    BuiltAppend(LightSlotSpecs(i), LightSpecs(i));
  }

  lemma StandardBuilt()
    ensures Built(GlobalSpecs()) + Built(LightSlotSpecs(MaxLights)) + Built(TransformSpecs() + MaterialSpecs()) == StandardUniforms()
  {
    var g, l, t, m := GlobalSpecs(), LightSlotSpecs(MaxLights), TransformSpecs(), MaterialSpecs();
    BuiltAppend(g, l);
    BuiltAppend(g + l, t + m);
    assert g + l + t + m == (g + l) + (t + m);
  }

  lemma AppendTwo<T>(o: seq<T>, a: seq<T>, b: seq<T>, s: seq<T>)
    requires a + b == s
    ensures o + a + b == o + s
  {
  }

  lemma AppendThree<T>(o: seq<T>, a: seq<T>, b: seq<T>, c: seq<T>, s: seq<T>)
    requires a + b + c == s
    ensures o + a + b + c == o + s
  {
  }

  /** Registers the given uniforms in order. */
  method AddList(p: SP.Program, specs: seq<UniformSpec>)
    modifies p
    ensures p.uniforms == old(p.uniforms) + Built(specs)
    ensures p.samplers == old(p.samplers) && p.program == old(p.program) && p.failedToLink == old(p.failedToLink)
  {
    var i := 0;
    while i < |specs|
      invariant 0 <= i <= |specs|
      invariant p.uniforms == old(p.uniforms) + Built(specs[..i])
      invariant p.samplers == old(p.samplers) && p.program == old(p.program) && p.failedToLink == old(p.failedToLink)
    {
      p.AddUniform(specs[i].0, 1, specs[i].1);
      assert Built(specs[..i + 1]) == Built(specs[..i]) + [SP.NewUniform(specs[i].1, specs[i].0, 1)];
      i := i + 1;
    }
    assert specs[..i] == specs;
  }
}
