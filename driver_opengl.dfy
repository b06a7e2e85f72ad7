/**
 * The OpenGL driver: a CPU-side cache of the GL pipeline state that lets
 * the renderer skip redundant GL calls, the resource-purge schedule, the
 * bound shader and render target, and the typeface and lighting-UBO caches.
 *
 * GL itself is modelled by `GLState` (the part of the GL context the driver
 * touches) and by the log of calls the driver issues; a setter "issues no
 * GL call" exactly when it leaves that log unchanged.
 */
module DriverOpenGL {
  import opened Wrappers
  import opened Strings
  import SP = ShaderProgram
  import SF = ShaderFactory
  import opened Decimal

  // GL enumerants used by the driver (OpenGL ES 2.0 / 3.0 headers).
  const GL_ZERO := 0
  const GL_ONE := 1
  const GL_ONE_MINUS_SRC_COLOR := 0x0301
  const GL_SRC_ALPHA := 0x0302
  const GL_ONE_MINUS_SRC_ALPHA := 0x0303
  const GL_DST_COLOR := 0x0306
  const GL_LEQUAL := 0x0203
  const GL_ALWAYS := 0x0207
  const GL_FRONT := 0x0404
  const GL_BACK := 0x0405
  const GL_FUNC_ADD := 0x8006
  const GL_FUNC_REVERSE_SUBTRACT := 0x800B

  /** Frames between two purges of unused shaders, and the gap after which the purge is forced. */
  const ResourcePurgeFrameInterval := 120
  const ResourcePurgeForceFrameInterval := 1200

  datatype CullMode = CullNone | Back | Front
  /** `Unsupported` stands for any other value of the blend-mode enumeration. */
  datatype BlendMode = BlendNone | Alpha | Add | Multiply | Subtract | Screen | PremultiplyAlpha | Unsupported
  datatype GPUType = Normal | Adreno330OrOlder | Mali
  datatype Capability = DepthTest | StencilTest | CullFace | Blend
  datatype UnbindOp = UnbindNone | Invalidate | CopyStencilAndInvalidate

  /** The GL calls the driver issues. */
  datatype GLCall =
    | ColorMask(enabled: bool)
    | DepthMask(enabled: bool)
    | DepthFunc(func: int)
    | Enable(cap: Capability)
    | Disable(cap: Capability)
    | CullFaceMode(face: int)
    | BlendEquation(equation: int)
    | BlendFunc(src: int, dst: int)
    | UseProgram(program: nat)

  /** Render targets are named by id; their own GL work is recorded as operations. */
  type TargetId = nat
  datatype TargetOp = BindTarget(target: TargetId) | InvalidateTarget(target: TargetId) | BlitStencil(from: TargetId, to: TargetId)

  /** The part of the GL context the driver's calls change. */
  datatype GLState = GLState(
    colorMask: bool, depthMask: bool, depthFunc: int, depthTest: bool, stencilTest: bool,
    cullFace: bool, cullFaceMode: int, blend: bool, blendEquation: int, blendSrc: int, blendDst: int,
    program: nat)

  function SetCap(g: GLState, cap: Capability, on: bool): GLState
  {
    match cap
    case DepthTest => g.(depthTest := on)
    case StencilTest => g.(stencilTest := on)
    case CullFace => g.(cullFace := on)
    case Blend => g.(blend := on)
  }

  /** What one GL call does to the context. */
  function Apply(g: GLState, c: GLCall): GLState
  {
    match c
    case ColorMask(on) => g.(colorMask := on)
    case DepthMask(on) => g.(depthMask := on)
    case DepthFunc(f) => g.(depthFunc := f)
    case Enable(cap) => SetCap(g, cap, true)
    case Disable(cap) => SetCap(g, cap, false)
    case CullFaceMode(face) => g.(cullFaceMode := face)
    case BlendEquation(e) => g.(blendEquation := e)
    case BlendFunc(s, d) => g.(blendSrc := s, blendDst := d)
    case UseProgram(p) => g.(program := p)
  }

  /** The context after a sequence of calls, in order. */
  function Run(g: GLState, calls: seq<GLCall>): GLState
    decreases |calls|
  {
    if calls == [] then g else Run(Apply(g, calls[0]), calls[1..])
  }

  lemma {:induction false} RunAppend(g: GLState, a: seq<GLCall>, b: seq<GLCall>)
    ensures Run(g, a + b) == Run(Run(g, a), b)
    decreases |a|
  {
    if a == [] {
      assert a + b == b;
    } else {
      assert (a + b)[1..] == a[1..] + b;
      RunAppend(Apply(g, a[0]), a[1..], b);
    }
  }

  /** Blend equation and factors a supported blend mode installs. */
  function BlendSetting(mode: BlendMode): Option<(int, int, int)>
  {
    match mode
    case Alpha => Some((GL_FUNC_ADD, GL_SRC_ALPHA, GL_ONE_MINUS_SRC_ALPHA))
    case Add => Some((GL_FUNC_ADD, GL_SRC_ALPHA, GL_ONE))
    case Multiply => Some((GL_FUNC_ADD, GL_DST_COLOR, GL_ZERO))
    case Subtract => Some((GL_FUNC_REVERSE_SUBTRACT, GL_SRC_ALPHA, GL_ONE))
    case Screen => Some((GL_FUNC_ADD, GL_ONE, GL_ONE_MINUS_SRC_COLOR))
    case PremultiplyAlpha => Some((GL_FUNC_ADD, GL_ONE, GL_ONE_MINUS_SRC_ALPHA))
    case _ => None
  }

  /** The calls that switch blending from mode `from` to mode `to`. */
  function BlendCalls(from: BlendMode, to: BlendMode): (calls: seq<GLCall>)
    ensures from == to ==> calls == []
  {
    if from == to then []
    else if to == BlendNone then [Disable(Blend)]
    else EnableCalls(from) + SettingCalls(to)
  }

  /** Leaving None turns blending on. */
  function EnableCalls(from: BlendMode): seq<GLCall>
  {
    if from == BlendNone then [Enable(Blend)] else []
  }

  /** A supported mode installs its equation and factors; any other installs nothing. */
  function SettingCalls(to: BlendMode): seq<GLCall>
  {
    match BlendSetting(to)
    case Some(s) => [BlendEquation(s.0), BlendFunc(s.1, s.2)]
    case None => []
  }

  /** The calls that switch culling to `mode`. */
  function CullCalls(mode: CullMode): seq<GLCall>
  {
    match mode
    case CullNone => [Disable(CullFace)]
    case Back => [Enable(CullFace), CullFaceMode(GL_BACK)]
    case Front => [Enable(CullFace), CullFaceMode(GL_FRONT)]
  }

  /** The context agrees with a cached cull mode. */
  predicate CullAgrees(mode: CullMode, g: GLState)
  {
    match mode
    case CullNone => !g.cullFace
    case Back => g.cullFace && g.cullFaceMode == GL_BACK
    case Front => g.cullFace && g.cullFaceMode == GL_FRONT
  }

  /** The context agrees with a cached blend mode; an unsupported mode only has blending on. */
  predicate BlendAgrees(mode: BlendMode, g: GLState)
  {
    g.blend == (mode != BlendNone)
    && (BlendSetting(mode).Some? ==> (g.blendEquation, g.blendSrc, g.blendDst) == BlendSetting(mode).value)
  }

  lemma RunSingle(g: GLState, a: GLCall)
    ensures Run(g, [a]) == Apply(g, a)
  {
    assert [a][1..] == [];
  }

  lemma RunPair(g: GLState, a: GLCall, b: GLCall)
    ensures Run(g, [a, b]) == Apply(Apply(g, a), b)
  {
    assert [a, b][1..] == [b];
    RunSingle(Apply(g, a), b);
  }

  /** Switching culling with CullCalls leaves the context agreeing with the new mode, and changes only culling. */
  lemma CullCallsAgree(mode: CullMode, g: GLState)
    ensures CullAgrees(mode, Run(g, CullCalls(mode)))
    ensures var h := Run(g, CullCalls(mode)); h == g.(cullFace := h.cullFace, cullFaceMode := h.cullFaceMode)
  {
    match mode
    case CullNone => RunSingle(g, Disable(CullFace));
    case Back => RunPair(g, Enable(CullFace), CullFaceMode(GL_BACK));
    case Front => RunPair(g, Enable(CullFace), CullFaceMode(GL_FRONT));
  }

  /**
   * Switching blend modes with BlendCalls brings the context from agreeing
   * with the old mode to agreeing with the new one, and touches nothing but
   * the blend state.
   */
  lemma BlendCallsAgree(from: BlendMode, to: BlendMode, g: GLState)
    requires BlendAgrees(from, g)
    ensures BlendAgrees(to, Run(g, BlendCalls(from, to)))
    ensures var h := Run(g, BlendCalls(from, to));
      h == g.(blend := h.blend, blendEquation := h.blendEquation, blendSrc := h.blendSrc, blendDst := h.blendDst)
  {
    if to == BlendNone && from != to {
      RunSingle(g, Disable(Blend));
    } else if from != to {
      BlendOnAgree(from, to, g);
    }
  }

  lemma BlendOnAgree(from: BlendMode, to: BlendMode, g: GLState)
    requires BlendAgrees(from, g) && to != BlendNone && from != to
    ensures var h := Run(g, EnableCalls(from) + SettingCalls(to));
      && BlendAgrees(to, h)
      && h == g.(blend := h.blend, blendEquation := h.blendEquation, blendSrc := h.blendSrc, blendDst := h.blendDst)
  {
    RunAppend(g, EnableCalls(from), SettingCalls(to));
    EnableRun(from, g);
    SettingRun(to, g.(blend := true));
  }

  /** After EnableCalls blending is on, and nothing else has changed. */
  lemma EnableRun(from: BlendMode, g: GLState)
    requires BlendAgrees(from, g)
    ensures Run(g, EnableCalls(from)) == g.(blend := true)
  {
    if from == BlendNone {
      RunSingle(g, Enable(Blend));
    }
  }

  /** After SettingCalls a supported mode's equation and factors are installed, and nothing else has changed. */
  lemma SettingRun(to: BlendMode, g: GLState)
    ensures var h := Run(g, SettingCalls(to));
      && h == g.(blendEquation := h.blendEquation, blendSrc := h.blendSrc, blendDst := h.blendDst)
      && (BlendSetting(to).Some? ==> (h.blendEquation, h.blendSrc, h.blendDst) == BlendSetting(to).value)
  {
    if BlendSetting(to).Some? {
      var s := BlendSetting(to).value;
      RunPair(g, BlendEquation(s.0), BlendFunc(s.1, s.2));
    }
  }

  /** The state willRenderFrame puts GL into, whatever it was before. */
  function FrameResetCalls(): seq<GLCall>
  {
    [ColorMask(true), Enable(DepthTest), DepthMask(true), DepthFunc(GL_LEQUAL), Enable(StencilTest),
     Disable(CullFace), Enable(Blend), BlendEquation(GL_FUNC_ADD), BlendFunc(GL_SRC_ALPHA, GL_ONE_MINUS_SRC_ALPHA)]
  }

  lemma RunStep(g: GLState, s: seq<GLCall>, i: nat)
    requires i < |s|
    ensures Run(g, s[i..]) == Run(Apply(g, s[i]), s[i + 1..])
  {
    assert s[i..][1..] == s[i + 1..];
  }

  /** Whatever the context held, the frame-reset calls leave it in the frame's starting state. */
  lemma FrameResetRun(g: GLState)
    ensures var h := Run(g, FrameResetCalls());
      h == g.(colorMask := true, depthTest := true, depthMask := true, depthFunc := GL_LEQUAL, stencilTest := true,
              cullFace := false, blend := true, blendEquation := GL_FUNC_ADD,
              blendSrc := GL_SRC_ALPHA, blendDst := GL_ONE_MINUS_SRC_ALPHA)
  {
    var s := FrameResetCalls();
    assert s == s[0..];
    var g0 := g;
    RunStep(g0, s, 0); var g1 := Apply(g0, s[0]);
    RunStep(g1, s, 1); var g2 := Apply(g1, s[1]);
    RunStep(g2, s, 2); var g3 := Apply(g2, s[2]);
    RunStep(g3, s, 3); var g4 := Apply(g3, s[3]);
    RunStep(g4, s, 4); var g5 := Apply(g4, s[4]);
    RunStep(g5, s, 5); var g6 := Apply(g5, s[5]);
    RunStep(g6, s, 6); var g7 := Apply(g6, s[6]);
    RunStep(g7, s, 7); var g8 := Apply(g7, s[7]);
    RunStep(g8, s, 8); var g9 := Apply(g8, s[8]);
    assert s[9..] == [];
  }

  /** The driver's CPU-side state: the cached GL state, the bindings and the caches. */
  datatype Cached = Cached(
    gpuType: GPUType, lastPurgeFrame: int, softwareGammaPass: bool,
    depthWritingEnabled: bool, depthReadingEnabled: bool, stencilTestEnabled: bool, colorWritingEnabled: bool,
    cullMode: CullMode, blendMode: BlendMode,
    boundShader: SP.Program?, boundRenderTarget: Option<TargetId>)

  /** The cached state describes the GL context. */
  predicate Mirrors(c: Cached, g: GLState)
  {
    g.colorMask == c.colorWritingEnabled
    && g.depthTest
    && g.depthMask == c.depthWritingEnabled
    && g.depthFunc == (if c.depthReadingEnabled then GL_LEQUAL else GL_ALWAYS)
    && g.stencilTest == c.stencilTestEnabled
    && CullAgrees(c.cullMode, g)
    && BlendAgrees(c.blendMode, g)
  }

  /** Switching blend or cull modes keeps an agreeing context agreeing. */
  lemma BlendMirrors(c: Cached, g: GLState, mode: BlendMode)
    ensures Mirrors(c, g) ==> Mirrors(c.(blendMode := mode), Run(g, BlendCalls(c.blendMode, mode)))
  {
    if Mirrors(c, g) {
      BlendCallsAgree(c.blendMode, mode, g);
    }
  }

  lemma CullMirrors(c: Cached, g: GLState, mode: CullMode)
    ensures Mirrors(c, g) ==> Mirrors(c.(cullMode := mode), Run(g, CullCalls(mode)))
  {
    CullCallsAgree(mode, g);
  }

  /** The cached state willRenderFrame starts every frame from. */
  function FrameStart(c: Cached): Cached
  {
    c.(colorWritingEnabled := true, depthWritingEnabled := true, depthReadingEnabled := true,
       stencilTestEnabled := true, cullMode := CullNone, blendMode := Alpha, boundRenderTarget := None)
  }

  /** After the frame-reset calls the context agrees with the frame's starting cache. */
  lemma FrameStartMirrors(c: Cached, g: GLState)
    ensures Mirrors(FrameStart(c), Run(g, FrameResetCalls()))
  {
    FrameResetRun(g);
  }

  /**
   * didRenderFrame's decision for `frame` after a purge at `last`: whether to
   * purge, and whether to force the purge regardless of the frame's time budget.
   */
  function PurgeDecision(frame: int, last: int): (d: (bool, bool))
    ensures d.0 <==> frame - last >= ResourcePurgeFrameInterval
    ensures d.1 <==> frame - last > ResourcePurgeForceFrameInterval
    ensures d.1 ==> d.0
  {
    if frame - last < ResourcePurgeFrameInterval then (false, false)
    else (true, frame - last > ResourcePurgeForceFrameInterval)
  }

  /** The decisions didRenderFrame takes over a run of frames, starting after a purge at `last`. */
  function Schedule(last: int, frames: seq<int>): (r: seq<(bool, bool)>)
    ensures |r| == |frames|
    decreases |frames|
  {
    if frames == [] then []
    else
      var d := PurgeDecision(frames[0], last);
      [d] + Schedule(if d.0 then frames[0] else last, frames[1..])
  }

  /** The i-th frame of a run that starts k frames after a purge is a multiple of 120 frames after it. */
  predicate PurgeDue(k: int, i: int)
  {
    (k + 1 + i) % 120 == 0
  }

  /**
   * When didRenderFrame sees every frame, starting `k` frames after the last
   * purge, it purges every 120th frame and never forces a purge.
   */
  lemma {:induction false} ConsecutiveFramesSchedule(last: int, k: nat, frames: seq<int>)
    requires k < ResourcePurgeFrameInterval
    requires forall i :: 0 <= i < |frames| ==> frames[i] == last + k + 1 + i
    ensures var r := Schedule(last, frames);
      forall i :: 0 <= i < |frames| ==> !r[i].1 && (r[i].0 <==> PurgeDue(k, i))
    decreases |frames|
  {
    var r := Schedule(last, frames);
    if |frames| > 0 {
      var d := PurgeDecision(frames[0], last);
      assert !d.1 && (d.0 <==> k + 1 == 120);
      var next := if d.0 then frames[0] else last;
      var k' := if d.0 then 0 else k + 1;
      var rest := Schedule(next, frames[1..]);
      assert r == [d] + rest;
      ConsecutiveFramesSchedule(next, k', frames[1..]);
      forall i | 1 <= i < |frames|
        ensures !r[i].1 && (r[i].0 <==> PurgeDue(k, i))
      {
        assert r[i] == rest[i - 1];
        assert rest[i - 1].0 <==> PurgeDue(k', i - 1);
        if d.0 {
          assert k + 1 + i == 120 + (k' + 1 + (i - 1));
        }
      }
    }
  }

  // ---- readGPUType ----

  /** `s.find(sub) != npos`. */
  predicate Contains(s: string, sub: string)
  {
    exists i :: 0 <= i <= |s| - |sub| && OccursAt(s, sub, i)
  }

  predicate OccursAt(s: string, sub: string, i: int)
  {
    0 <= i <= |s| - |sub| && s[i..i + |sub|] == sub
  }

  /** The Adreno renderers whose name marks a GPU of the 330 generation or older. */
  predicate OldAdrenoRenderer(renderer: string)
  {
    Contains(renderer, "302") || Contains(renderer, "304") || Contains(renderer, "305")
    || Contains(renderer, "306") || Contains(renderer, "308") || Contains(renderer, "320")
    || Contains(renderer, "330")
  }

  /** The GPU type readGPUType records, starting from `current`. */
  function GPUTypeFor(vendor: string, renderer: string, current: GPUType): (t: GPUType)
    ensures EqualsIgnoreCase(vendor, "Qualcomm") && OldAdrenoRenderer(renderer) ==> t == Adreno330OrOlder
    ensures EqualsIgnoreCase(vendor, "ARM") && Contains(renderer, "Mali") ==> t == Mali
    ensures t != current ==> t == Adreno330OrOlder || t == Mali
    ensures t == Adreno330OrOlder && current != Adreno330OrOlder ==> EqualsIgnoreCase(vendor, "Qualcomm") && OldAdrenoRenderer(renderer)
    ensures t == Mali && current != Mali ==> EqualsIgnoreCase(vendor, "ARM") && Contains(renderer, "Mali")
  {
    var afterQualcomm := if EqualsIgnoreCase(vendor, "Qualcomm") && OldAdrenoRenderer(renderer) then Adreno330OrOlder else current;
    if EqualsIgnoreCase(vendor, "ARM") && Contains(renderer, "Mali") then Mali else afterQualcomm
  }

  // ---- decimal strings and the typeface key ----

  /** The key newTypefaceCollection files a collection under. */
  function TypefaceKey(typefaces: string, size: int, style: int, weight: int): string
  {
    typefaces + "_" + IntToString(size) + "_" + IntToString(style) + "_" + IntToString(weight)
  }

  /** Index of the last '_' in `s`, or -1. */
  function LastSeparator(s: string): (r: int)
    ensures -1 <= r < |s|
  {
    if |s| == 0 then -1 else if s[|s| - 1] == '_' then |s| - 1 else LastSeparator(s[..|s| - 1])
  }

  lemma {:induction false} LastSeparatorOf(x: string, u: string)
    requires NoUnderscore(u)
    ensures LastSeparator(x + "_" + u) == |x|
    decreases |u|
  {
    var s := x + "_" + u;
    if u != [] {
      assert s[..|s| - 1] == x + "_" + u[..|u| - 1];
      LastSeparatorOf(x, u[..|u| - 1]);
    }
  }

  /** Splitting at the last underscore: a suffix without '_' is determined. */
  lemma SplitLast(x: string, u: string, y: string, v: string)
    requires NoUnderscore(u) && NoUnderscore(v)
    requires x + "_" + u == y + "_" + v
    ensures x == y && u == v
  {
    var s := x + "_" + u;
    LastSeparatorOf(x, u);
    LastSeparatorOf(y, v);
    assert x == s[..|x|] == y;
    assert u == s[|x| + 1..] == v;
  }

  /** Distinct requests never share a typeface-cache entry. */
  lemma TypefaceKeyInjective(t1: string, size1: int, style1: int, weight1: int,
                             t2: string, size2: int, style2: int, weight2: int)
    requires TypefaceKey(t1, size1, style1, weight1) == TypefaceKey(t2, size2, style2, weight2)
    ensures t1 == t2 && size1 == size2 && style1 == style2 && weight1 == weight2
  {
    SplitLast(t1 + "_" + IntToString(size1) + "_" + IntToString(style1), IntToString(weight1),
              t2 + "_" + IntToString(size2) + "_" + IntToString(style2), IntToString(weight2));
    SplitLast(t1 + "_" + IntToString(size1), IntToString(style1), t2 + "_" + IntToString(size2), IntToString(style2));
    SplitLast(t1, IntToString(size1), t2, IntToString(size2));
    IntRoundTrip(size1); IntRoundTrip(size2);
    IntRoundTrip(style1); IntRoundTrip(style2);
    IntRoundTrip(weight1); IntRoundTrip(weight2);
  }

  type TypefaceId = nat
  type UboId = nat

  class Driver {
    var gpuType: GPUType
    var lastPurgeFrame: int
    var softwareGammaPass: bool
    var depthWritingEnabled: bool
    var depthReadingEnabled: bool
    var stencilTestEnabled: bool
    var colorWritingEnabled: bool
    var cullMode: CullMode
    var blendMode: BlendMode
    var boundShader: SP.Program?
    /** The bound render target, held weakly. */
    var boundRenderTarget: Option<TargetId>
    /** Weak references to lighting UBOs by lights hash, and to typeface collections by key. */
    var lightingUBOs: map<int, UboId>
    var typefaces: map<string, TypefaceId>
    const shaderFactory: SF.Factory

    /** The GL context, and the calls and render-target operations issued so far. */
    var gl: GLState
    var calls: seq<GLCall>
    var targetOps: seq<TargetOp>

    function Cache(): Cached
      reads this
    {
      Cached(gpuType, lastPurgeFrame, softwareGammaPass, depthWritingEnabled, depthReadingEnabled,
             stencilTestEnabled, colorWritingEnabled, cullMode, blendMode, boundShader, boundRenderTarget)
    }

    predicate Synced()
      reads this
    {
      Mirrors(Cache(), gl)
    }

    /**
     * The constructor leaves the stencil flag unset in the source; the model
     * takes its initial value, and the initial GL context, as parameters.
     */
    constructor(initialStencil: bool, context: GLState)
      ensures Cache() == Cached(Normal, 0, false, true, true, initialStencil, true, CullNone, Alpha, null, None)
      ensures lightingUBOs == map[] && typefaces == map[]
      ensures fresh(shaderFactory) && shaderFactory.Valid() && shaderFactory.entries == []
      ensures gl == context && calls == [] && targetOps == []
    {
      gpuType := Normal;
      lastPurgeFrame := 0;
      softwareGammaPass := false;
      depthWritingEnabled := true;
      depthReadingEnabled := true;
      stencilTestEnabled := initialStencil;
      colorWritingEnabled := true;
      cullMode := CullNone;
      blendMode := Alpha;
      boundShader := null;
      boundRenderTarget := None;
      lightingUBOs := map[];
      typefaces := map[];
      shaderFactory := new SF.Factory();
      gl := context;
      calls := [];
      targetOps := [];
    }

    /** Issue GL calls, in order. */
    method Issue(cs: seq<GLCall>)
      modifies this`gl, this`calls
      ensures calls == old(calls) + cs && gl == Run(old(gl), cs)
      ensures Cache() == old(Cache()) && targetOps == old(targetOps)
    {
      var i := 0;
      while i < |cs|
        invariant 0 <= i <= |cs|
        invariant calls == old(calls) + cs[..i] && gl == Run(old(gl), cs[..i])
        invariant Cache() == old(Cache()) && targetOps == old(targetOps)
      {
        RunAppend(old(gl), cs[..i], [cs[i]]);
        RunSingle(Run(old(gl), cs[..i]), cs[i]);
        assert cs[..i + 1] == cs[..i] + [cs[i]];
        gl := Apply(gl, cs[i]);
        calls := calls + [cs[i]];
        i := i + 1;
      }
      assert cs[..i] == cs;
    }

    /** Resets the cache and GL to the frame's starting state, whatever GL held before. */
    method WillRenderFrame()
      modifies this`gl, this`calls, this`boundRenderTarget, this`colorWritingEnabled, this`depthWritingEnabled,
               this`depthReadingEnabled, this`stencilTestEnabled, this`cullMode, this`blendMode
      ensures Cache() == FrameStart(old(Cache()))
      ensures calls == old(calls) + FrameResetCalls()
      ensures Synced()
    {
      ghost var c := Cache();
      FrameStartMirrors(c, gl);
      Issue(FrameResetCalls());
      ResetCache();
      assert Cache() == FrameStart(c);
    }

    method ResetCache()
      modifies this`boundRenderTarget, this`colorWritingEnabled, this`depthWritingEnabled, this`depthReadingEnabled,
               this`stencilTestEnabled, this`cullMode, this`blendMode
      ensures Cache() == FrameStart(old(Cache()))
    {
      boundRenderTarget := None;
      colorWritingEnabled := true;
      depthWritingEnabled := true;
      depthReadingEnabled := true;
      stencilTestEnabled := true;
      cullMode := CullNone;
      blendMode := Alpha;
    }

    /**
     * Purges unused shaders when at least 120 frames have passed since the last
     * purge, forcing it past 1200, and records the frame.  `timeRemaining` is the
     * frame timer's answer after n shaders have been examined.
     */
    method DidRenderFrame(frame: int, timeRemaining: nat -> bool, shared: set<int>) returns (purged: bool, forced: bool)
      requires shaderFactory.Valid()
      modifies this, shaderFactory
      ensures (purged, forced) == PurgeDecision(frame, old(lastPurgeFrame))
      ensures Cache() == old(Cache()).(lastPurgeFrame := if purged then frame else old(lastPurgeFrame))
      ensures lightingUBOs == old(lightingUBOs) && typefaces == old(typefaces)
      ensures shaderFactory.Valid()
      ensures !purged ==> shaderFactory.entries == old(shaderFactory.entries)
      ensures forced ==> shaderFactory.entries == SF.KeepShared(old(shaderFactory.entries), shared)
      ensures calls == old(calls) && gl == old(gl) && targetOps == old(targetOps)
    {
      if frame - lastPurgeFrame < ResourcePurgeFrameInterval {
        return false, false;
      }
      purged := true;
      forced := frame - lastPurgeFrame > ResourcePurgeForceFrameInterval;
      ghost var visited := shaderFactory.PurgeUnusedShaders(timeRemaining, forced, shared);
      assert forced ==> old(shaderFactory.entries)[..visited] == old(shaderFactory.entries)
                        && old(shaderFactory.entries)[visited..] == [];
      lastPurgeFrame := frame;
    }

    method SetDepthWritingEnabled(enabled: bool)
      modifies this
      ensures Cache() == old(Cache()).(depthWritingEnabled := enabled)
      ensures lightingUBOs == old(lightingUBOs) && typefaces == old(typefaces)
      ensures calls == if old(depthWritingEnabled) == enabled then old(calls) else old(calls) + [DepthMask(enabled)]
      ensures old(Synced()) ==> Synced()
      ensures targetOps == old(targetOps)
    {
      if depthWritingEnabled == enabled {
        return;
      }
      RunSingle(gl, DepthMask(enabled));
      Issue([DepthMask(enabled)]);
      depthWritingEnabled := enabled;
    }

    method SetDepthReadingEnabled(enabled: bool)
      modifies this
      ensures Cache() == old(Cache()).(depthReadingEnabled := enabled)
      ensures lightingUBOs == old(lightingUBOs) && typefaces == old(typefaces)
      ensures calls == if old(depthReadingEnabled) == enabled then old(calls)
                       else old(calls) + [DepthFunc(if enabled then GL_LEQUAL else GL_ALWAYS)]
      ensures old(Synced()) ==> Synced()
      ensures targetOps == old(targetOps)
    {
      if depthReadingEnabled == enabled {
        return;
      }
      RunSingle(gl, DepthFunc(if enabled then GL_LEQUAL else GL_ALWAYS));
      Issue([DepthFunc(if enabled then GL_LEQUAL else GL_ALWAYS)]);
      depthReadingEnabled := enabled;
    }

    method SetStencilTestEnabled(enabled: bool)
      modifies this
      ensures Cache() == old(Cache()).(stencilTestEnabled := enabled)
      ensures lightingUBOs == old(lightingUBOs) && typefaces == old(typefaces)
      ensures calls == if old(stencilTestEnabled) == enabled then old(calls)
                       else old(calls) + [if enabled then Enable(StencilTest) else Disable(StencilTest)]
      ensures old(Synced()) ==> Synced()
      ensures targetOps == old(targetOps)
    {
      if stencilTestEnabled == enabled {
        return;
      }
      RunSingle(gl, if enabled then Enable(StencilTest) else Disable(StencilTest));
      Issue([if enabled then Enable(StencilTest) else Disable(StencilTest)]);
      stencilTestEnabled := enabled;
    }

    method SetColorWritingEnabled(enabled: bool)
      modifies this
      ensures Cache() == old(Cache()).(colorWritingEnabled := enabled)
      ensures lightingUBOs == old(lightingUBOs) && typefaces == old(typefaces)
      ensures calls == if old(colorWritingEnabled) == enabled then old(calls) else old(calls) + [ColorMask(enabled)]
      ensures old(Synced()) ==> Synced()
      ensures targetOps == old(targetOps)
    {
      if colorWritingEnabled == enabled {
        return;
      }
      RunSingle(gl, ColorMask(enabled));
      Issue([ColorMask(enabled)]);
      colorWritingEnabled := enabled;
    }

    method SetCullMode(mode: CullMode)
      modifies this
      ensures Cache() == old(Cache()).(cullMode := mode)
      ensures lightingUBOs == old(lightingUBOs) && typefaces == old(typefaces)
      ensures calls == if old(cullMode) == mode then old(calls) else old(calls) + CullCalls(mode)
      ensures old(Synced()) ==> Synced()
      ensures targetOps == old(targetOps)
    {
      if cullMode == mode {
        return;
      }
      CullMirrors(Cache(), gl, mode);
      Issue(CullCalls(mode));
      cullMode := mode;
    }

    /**
     * Switches blending: leaving None enables it, entering None disables it,
     * a supported mode installs its equation and factors, an unsupported one
     * only warns; the new mode is recorded in every case.
     */
    method SetBlendingMode(mode: BlendMode)
      modifies this
      ensures Cache() == old(Cache()).(blendMode := mode)
      ensures lightingUBOs == old(lightingUBOs) && typefaces == old(typefaces)
      ensures calls == old(calls) + BlendCalls(old(blendMode), mode)
      ensures old(Synced()) ==> Synced()
      ensures targetOps == old(targetOps)
    {
      if blendMode != mode {
        ghost var c := Cache();
        BlendMirrors(c, gl, mode);
        Issue(BlendCalls(blendMode, mode));
        blendMode := mode;
        assert Cache() == c.(blendMode := mode);
      }
    }

    /**
     * Binds `program` (null unbinds): nothing happens when it is already bound.
     * A program that failed to link is recorded without a glUseProgram.
     */
    method BindShader(program: SP.Program?)
      requires program != null ==> program.failedToLink || program.IsHydrated()
      modifies this, program
      ensures Cache() == old(Cache()).(boundShader := program)
      ensures lightingUBOs == old(lightingUBOs) && typefaces == old(typefaces)
      ensures old(boundShader) == program ==> calls == old(calls) && (program != null ==> unchanged(program))
      ensures old(boundShader) != program && program == null ==> calls == old(calls) + [UseProgram(0)]
      ensures old(boundShader) != program && program != null ==>
        calls == old(calls) + (if program.failedToLink then [] else [UseProgram(program.program)])
      ensures old(Synced()) ==> Synced()
      ensures targetOps == old(targetOps)
    {
      if boundShader == program {
        return;
      }
      if program != null {
        var ok, _ := program.Bind();
        if ok {
          RunSingle(gl, UseProgram(program.program));
          Issue([UseProgram(program.program)]);
        }
      } else {
        RunSingle(gl, UseProgram(0));
        Issue([UseProgram(0)]);
      }
      boundShader := program;
    }

    /** Unbinds the bound shader, and issues nothing when none is bound. */
    method UnbindShader()
      modifies this
      ensures Cache() == old(Cache()).(boundShader := null)
      ensures lightingUBOs == old(lightingUBOs) && typefaces == old(typefaces)
      ensures calls == if old(boundShader) == null then old(calls) else old(calls) + [UseProgram(0)]
      ensures old(Synced()) ==> Synced()
      ensures targetOps == old(targetOps)
    {
      if boundShader != null {
        boundShader := null;
        RunSingle(gl, UseProgram(0));
        Issue([UseProgram(0)]);
      }
    }

    /** The weakly held render target, when its owner still holds it. */
    function LiveTarget(live: set<TargetId>): (t: Option<TargetId>)
      reads this
      ensures t.Some? <==> boundRenderTarget.Some? && boundRenderTarget.value in live
      ensures t.Some? ==> t == boundRenderTarget
    {
      if boundRenderTarget.Some? && boundRenderTarget.value in live then boundRenderTarget else None
    }

    /**
     * Binds `target`, first releasing the previously bound (still live) target as
     * `op` says; nothing happens when `target` is the bound target.
     */
    method BindRenderTarget(target: TargetId, op: UnbindOp, live: set<TargetId>)
      modifies this
      ensures Cache() == old(Cache()).(boundRenderTarget :=
        if old(LiveTarget(live)) == Some(target) then old(boundRenderTarget) else Some(target))
      ensures lightingUBOs == old(lightingUBOs) && typefaces == old(typefaces)
      ensures old(LiveTarget(live)) == Some(target) ==> targetOps == old(targetOps)
      ensures old(LiveTarget(live)) == None ==> targetOps == old(targetOps) + [BindTarget(target)]
      ensures old(LiveTarget(live)).Some? && old(LiveTarget(live)) != Some(target) ==>
        var prev := old(LiveTarget(live)).value;
        targetOps == old(targetOps) + match op
          case UnbindNone => [BindTarget(target)]
          case Invalidate => [InvalidateTarget(prev), BindTarget(target)]
          case CopyStencilAndInvalidate => [BindTarget(target), BlitStencil(prev, target), InvalidateTarget(prev)]
      ensures calls == old(calls) && gl == old(gl)
    {
      var bound := LiveTarget(live);
      if bound == Some(target) {
        return;
      }
      if bound.Some? {
        var prev := bound.value;
        match op
        case UnbindNone =>
          targetOps := targetOps + [BindTarget(target)];
        case Invalidate =>
          targetOps := targetOps + [InvalidateTarget(prev), BindTarget(target)];
        case CopyStencilAndInvalidate =>
          targetOps := targetOps + [BindTarget(target), BlitStencil(prev, target), InvalidateTarget(prev)];
      } else {
        targetOps := targetOps + [BindTarget(target)];
      }
      boundRenderTarget := Some(target);
    }

    /** Invalidates the bound (live) target and forgets it; didRenderEye does this between eyes. */
    method UnbindRenderTarget(live: set<TargetId>)
      modifies this
      ensures Cache() == old(Cache()).(boundRenderTarget := None)
      ensures lightingUBOs == old(lightingUBOs) && typefaces == old(typefaces)
      ensures targetOps == match old(LiveTarget(live))
        case Some(t) => old(targetOps) + [InvalidateTarget(t)]
        case None => old(targetOps)
      ensures calls == old(calls) && gl == old(gl)
    {
      var bound := LiveTarget(live);
      if bound.Some? {
        targetOps := targetOps + [InvalidateTarget(bound.value)];
      }
      boundRenderTarget := None;
    }

    /** Records the GPU type the vendor and renderer strings identify. */
    method ReadGPUType(vendor: string, renderer: string)
      modifies this
      ensures Cache() == old(Cache()).(gpuType := GPUTypeFor(vendor, renderer, old(gpuType)))
      ensures lightingUBOs == old(lightingUBOs) && typefaces == old(typefaces)
      ensures calls == old(calls) && gl == old(gl) && targetOps == old(targetOps)
    {
      if EqualsIgnoreCase(vendor, "Qualcomm") && OldAdrenoRenderer(renderer) {
        gpuType := Adreno330OrOlder;
      }
      if EqualsIgnoreCase(vendor, "ARM") && Contains(renderer, "Mali") {
        gpuType := Mali;
      }
    }

    /** The UBO cached for `lightsHash` while it is alive (`live`), else nothing. */
    method GetLightingUBO(lightsHash: int, live: set<UboId>) returns (ubo: Option<UboId>)
      ensures ubo.Some? <==> lightsHash in lightingUBOs && lightingUBOs[lightsHash] in live
      ensures ubo.Some? ==> ubo.value == lightingUBOs[lightsHash]
    {
      if lightsHash in lightingUBOs && lightingUBOs[lightsHash] in live {
        return Some(lightingUBOs[lightsHash]);
      }
      return None;
    }

    /** Files the new UBO `created` under `lightsHash`, replacing any older one. */
    method CreateLightingUBO(lightsHash: int, created: UboId) returns (ubo: UboId)
      modifies this
      ensures ubo == created
      ensures Cache() == old(Cache())
      ensures lightingUBOs == old(lightingUBOs)[lightsHash := created] && typefaces == old(typefaces)
      ensures calls == old(calls) && gl == old(gl) && targetOps == old(targetOps)
    {
      lightingUBOs := lightingUBOs[lightsHash := created];
      return created;
    }

    /**
     * The collection cached under the request's key while it is alive;
     * otherwise `created` (the platform's new collection) is cached and returned.
     */
    method NewTypefaceCollection(names: string, size: int, style: int, weight: int,
                                 live: set<TypefaceId>, created: TypefaceId) returns (t: TypefaceId)
      modifies this
      ensures var key := TypefaceKey(names, size, style, weight);
        if key in old(typefaces) && old(typefaces)[key] in live
        then t == old(typefaces)[key] && typefaces == old(typefaces)
        else t == created && typefaces == old(typefaces)[key := created]
      ensures Cache() == old(Cache()) && lightingUBOs == old(lightingUBOs)
      ensures calls == old(calls) && gl == old(gl) && targetOps == old(targetOps)
    {
      var key := TypefaceKey(names, size, style, weight);
      if key !in typefaces {
        typefaces := typefaces[key := created];
        return created;
      }
      if typefaces[key] in live {
        return typefaces[key];
      }
      typefaces := typefaces[key := created];
      return created;
    }

    method SetHasSoftwareGammaPass(gammaPass: bool)
      modifies this
      ensures Cache() == old(Cache()).(softwareGammaPass := gammaPass)
      ensures lightingUBOs == old(lightingUBOs) && typefaces == old(typefaces)
      ensures calls == old(calls) && gl == old(gl) && targetOps == old(targetOps)
    {
      softwareGammaPass := gammaPass;
    }
  }
}
