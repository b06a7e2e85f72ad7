/** A GLSL program as VROShaderProgram keeps it: the attribute capability
    mask, the uniform and sampler lists, the GL program name, the link
    failure flag, the rebind flag and the memoised indices of the "alpha"
    and "color" uniforms. GL calls are replaced by the outcomes the driver
    reports, passed in as parameters. */
module ShaderProgram {
  import opened Wrappers

  /** The uniform types newUniformForType can build. */
  datatype ShaderProperty = Int | IVec2 | IVec3 | IVec4 | Float | Vec2 | Vec3 | Vec4 | Mat2 | Mat3 | Mat4

  predicate IsMatrix(p: ShaderProperty)
  {
    p in {Mat2, Mat3, Mat4}
  }

  /** A uniform; matrix uniforms carry no array size. */
  datatype Uniform = Uniform(name: string, property: ShaderProperty, arraySize: Option<int>)

  /** newUniformForType: vector and scalar uniforms keep the array size,
      matrix uniforms drop it. */
  function NewUniform(name: string, property: ShaderProperty, arraySize: int): (u: Uniform)
    ensures u.name == name && u.property == property
    ensures u.arraySize == None <==> IsMatrix(property)
    ensures u.arraySize.Some? ==> u.arraySize.value == arraySize
  {
    Uniform(name, property, if IsMatrix(property) then None else Some(arraySize))
  }

  datatype ShaderAttribute = Verts | Tex | Norm | Color

  /** The capability bits an attribute can switch on. */
  datatype ShaderMask = TexMask | NormMask | ColorMask

  /** What the GL driver reports while building a program: the name
      glCreateProgram returned (0 when there is no context), whether each
      shader compiled and whether the program linked. */
  datatype GLBuild = GLBuild(createdId: nat, vertexCompiles: bool, fragmentCompiles: bool, links: bool)

  /** The position of the first uniform with the given name, or -1. */
  function FirstIndex(uniforms: seq<Uniform>, name: string): (idx: int)
    ensures -1 <= idx < |uniforms|
    ensures idx >= 0 ==> uniforms[idx].name == name
    ensures forall j :: 0 <= j < |uniforms| && (idx == -1 || j < idx) ==> uniforms[j].name != name
  {
    if |uniforms| == 0 then -1
    else if uniforms[0].name == name then 0
    else
      var rest := FirstIndex(uniforms[1..], name);
      if rest == -1 then -1 else rest + 1
  }

  /** Appending uniforms never moves a name that is already present. */
  lemma {:induction false} FirstIndexAppend(u: seq<Uniform>, v: seq<Uniform>, name: string)
    requires FirstIndex(u, name) >= 0
    ensures FirstIndex(u + v, name) == FirstIndex(u, name)
  {
    if u[0].name != name {
      assert (u + v)[1..] == u[1..] + v;
      FirstIndexAppend(u[1..], v, name);
    }
  }

  /** A memoised uniform lookup: the cached index (-1 when not looked up
      yet) and whether the uniform may still exist. */
  datatype Memo = Memo(index: int, present: bool)

  const Unsearched := Memo(-1, true)

  /** getAlphaUniformIndex / getColorUniformIndex: a remembered miss answers
      -1, a cached hit answers its index, and only an empty cache searches. */
  function MemoLookup(uniforms: seq<Uniform>, name: string, m: Memo): (r: (int, Memo))
    ensures !m.present ==> r == (-1, m)
    ensures m.present && m.index != -1 ==> r == (m.index, m)
    ensures m == Unsearched ==> r.0 == FirstIndex(uniforms, name) && r.1 == Memo(r.0, r.0 != -1)
  {
    if !m.present then (-1, m)
    else if m.index == -1 then
      var i := FirstIndex(uniforms, name);
      (i, Memo(i, i != -1))
    else (m.index, m)
  }

  /** Asking again with the memo a lookup left behind gives the same answer
      and leaves the memo as it is. */
  lemma MemoLookupIdempotent(uniforms: seq<Uniform>, more: seq<Uniform>, name: string, m: Memo)
    requires m == Unsearched
    ensures var (i, m') := MemoLookup(uniforms, name, m);
      MemoLookup(uniforms + more, name, m') == (i, m')
  {
  }

  /** A cached hit stays right while uniforms are only appended, but a
      remembered miss is never searched again, even once a uniform with
      that name has been added. */
  lemma MemoAfterAppend(uniforms: seq<Uniform>, more: seq<Uniform>, name: string)
    ensures var (i, m) := MemoLookup(uniforms, name, Unsearched);
      && (i >= 0 ==> MemoLookup(uniforms + more, name, m).0 == FirstIndex(uniforms + more, name))
      && (i == -1 ==> MemoLookup(uniforms + more, name, m).0 == -1)
  {
    var i := FirstIndex(uniforms, name);
    if i >= 0 {
      FirstIndexAppend(uniforms, more, name);
    }
  }

  class Program {
    /** The vertex and fragment assets the program was loaded from. */
    const vertexShader: string
    const fragmentShader: string
    const vertexSource: string
    const fragmentSource: string

    var capabilities: set<ShaderMask>
    var normTransformsSet: bool
    var uniformsNeedRebind: bool
    /** The GL program name; 0 while the program is not hydrated. */
    var program: nat
    var failedToLink: bool
    var alpha: Memo
    var color: Memo
    var offset: Memo
    var uniforms: seq<Uniform>
    var samplers: seq<string>

    /** The named constructor: it loads the assets name_vsh and name_fsh
        into fixed 200-byte buffers and insists that both are non-empty. */
    constructor (name: string, cap: set<ShaderMask>, assets: string -> string)
      requires |name| + 5 <= 200
      requires assets(name + "_vsh") != [] && assets(name + "_fsh") != []
      ensures vertexShader == name + "_vsh" && fragmentShader == name + "_fsh"
      ensures vertexSource == assets(vertexShader) && fragmentSource == assets(fragmentShader)
      ensures Fresh(cap)
    {
      vertexShader := name + "_vsh";
      fragmentShader := name + "_fsh";
      vertexSource := assets(name + "_vsh");
      fragmentSource := assets(name + "_fsh");
      capabilities := cap;
      normTransformsSet := false;
      uniformsNeedRebind := true;
      program := 0;
      failedToLink := false;
      alpha := Unsearched;
      color := Unsearched;
      offset := Unsearched;
      uniforms := [];
      samplers := [];
    }

    /** The constructor the material substrate uses, from explicit vertex
        and fragment asset names. */
    constructor FromShaders(vertex: string, fragment: string, cap: set<ShaderMask>, assets: string -> string)
      requires assets(vertex) != [] && assets(fragment) != []
      ensures vertexShader == vertex && fragmentShader == fragment
      ensures vertexSource == assets(vertex) && fragmentSource == assets(fragment)
      ensures Fresh(cap)
    {
      vertexShader := vertex;
      fragmentShader := fragment;
      vertexSource := assets(vertex);
      fragmentSource := assets(fragment);
      capabilities := cap;
      normTransformsSet := false;
      uniformsNeedRebind := true;
      program := 0;
      failedToLink := false;
      alpha := Unsearched;
      color := Unsearched;
      offset := Unsearched;
      uniforms := [];
      samplers := [];
    }

    /** The state of a program that has just been loaded. */
    predicate Fresh(cap: set<ShaderMask>)
      reads this
    {
      && capabilities == cap && !normTransformsSet && uniformsNeedRebind
      && program == 0 && !failedToLink
      && alpha == Unsearched && color == Unsearched && offset == Unsearched
      && uniforms == [] && samplers == []
      && vertexSource != [] && fragmentSource != []
    }

    predicate IsHydrated()
      reads this
    {
      program != 0
    }

    /** setUniforms: replaces the uniform list, one uniform per name. */
    method SetUniforms(properties: seq<ShaderProperty>, names: seq<string>)
      requires |properties| == |names|
      modifies this
      ensures |uniforms| == |names|
      ensures forall i :: 0 <= i < |names| ==> uniforms[i] == NewUniform(names[i], properties[i], 1)
      ensures uniformsNeedRebind
      ensures program == old(program) && samplers == old(samplers) && capabilities == old(capabilities)
      ensures failedToLink == old(failedToLink) && alpha == old(alpha) && color == old(color)
    {
      var built: seq<Uniform> := [];
      var i := 0;
      while i < |names|
        invariant 0 <= i <= |names| && |built| == i
        invariant forall j :: 0 <= j < i ==> built[j] == NewUniform(names[j], properties[j], 1)
      {
        built := built + [NewUniform(names[i], properties[i], 1)];
        i := i + 1;
      }
      uniforms := built;
      uniformsNeedRebind := true;
    }

    /** setSamplers: replaces the sampler list. */
    method SetSamplers(names: seq<string>)
      modifies this
      ensures samplers == names
      ensures uniforms == old(uniforms) && uniformsNeedRebind == old(uniformsNeedRebind)
      ensures program == old(program) && failedToLink == old(failedToLink)
    {
      var copied: seq<string> := [];
      var i := 0;
      while i < |names|
        invariant 0 <= i <= |names| && copied == names[..i]
      {
        copied := copied + [names[i]];
        i := i + 1;
      }
      samplers := copied;
    }

    method AddUniform(property: ShaderProperty, arraySize: int, name: string)
      modifies this
      ensures uniforms == old(uniforms) + [NewUniform(name, property, arraySize)]
      ensures uniformsNeedRebind
      ensures samplers == old(samplers) && program == old(program) && failedToLink == old(failedToLink)
      ensures alpha == old(alpha) && color == old(color) && capabilities == old(capabilities)
    {
      uniforms := uniforms + [NewUniform(name, property, arraySize)];
      uniformsNeedRebind := true;
    }

    /** addAttribute: Tex, Norm and Color switch on their bit; any other
        attribute aborts and changes nothing. Only an unbuilt program may
        gain attributes. */
    method AddAttribute(attr: ShaderAttribute) returns (aborted: bool)
      requires program == 0
      modifies this
      ensures aborted <==> attr == Verts
      ensures attr == Tex ==> capabilities == old(capabilities) + {TexMask}
      ensures attr == Norm ==> capabilities == old(capabilities) + {NormMask}
      ensures attr == Color ==> capabilities == old(capabilities) + {ColorMask}
      ensures aborted ==> capabilities == old(capabilities)
      ensures uniforms == old(uniforms) && samplers == old(samplers) && program == old(program)
    {
      aborted := false;
      match attr
      case Tex => capabilities := capabilities + {TexMask};
      case Norm => capabilities := capabilities + {NormMask};
      case Color => capabilities := capabilities + {ColorMask};
      case Verts => aborted := true;
    }

    method AddSampler(name: string)
      modifies this
      ensures samplers == old(samplers) + [name]
      ensures uniformsNeedRebind
      ensures uniforms == old(uniforms) && program == old(program) && failedToLink == old(failedToLink)
      ensures capabilities == old(capabilities) && alpha == old(alpha) && color == old(color)
    {
      samplers := samplers + [name];
      uniformsNeedRebind := true;
    }

    /** hydrate through compileAndLink. Without a GL context the program
        stays unbuilt and the call succeeds so that it is retried later. A
        shader that fails to compile aborts with the program name already
        taken; a failed link aborts with the name released. After an abort
        the model follows the source's explicit `return false`, so the
        program is marked as failed to link. */
    method Hydrate(gl: GLBuild) returns (ok: bool, aborted: bool)
      requires program == 0
      requires vertexSource != [] && fragmentSource != []
      modifies this
      ensures gl.createdId == 0 ==> ok && !aborted && program == 0 && failedToLink == old(failedToLink)
      ensures gl.createdId != 0 ==>
        && aborted == !(gl.vertexCompiles && gl.fragmentCompiles && gl.links)
        && ok == !aborted
        && failedToLink == (old(failedToLink) || aborted)
        && program == (if gl.vertexCompiles && gl.fragmentCompiles && !gl.links then 0 else gl.createdId)
      ensures uniforms == old(uniforms) && samplers == old(samplers) && uniformsNeedRebind == old(uniformsNeedRebind)
      ensures alpha == old(alpha) && color == old(color) && capabilities == old(capabilities)
    {
      ok, aborted := CompileAndLink(gl);
      if !ok {
        failedToLink := true;
      }
    }

    method CompileAndLink(gl: GLBuild) returns (ok: bool, aborted: bool)
      requires vertexSource != [] && fragmentSource != []
      modifies this
      ensures gl.createdId == 0 ==> ok && !aborted && program == 0
      ensures gl.createdId != 0 ==>
        && aborted == !(gl.vertexCompiles && gl.fragmentCompiles && gl.links)
        && ok == !aborted
        && program == (if gl.vertexCompiles && gl.fragmentCompiles && !gl.links then 0 else gl.createdId)
      ensures uniforms == old(uniforms) && samplers == old(samplers) && uniformsNeedRebind == old(uniformsNeedRebind)
      ensures alpha == old(alpha) && color == old(color) && capabilities == old(capabilities)
      ensures failedToLink == old(failedToLink)
    {
      program := gl.createdId;
      if program == 0 {
        return true, false;
      }
      if !gl.vertexCompiles || !gl.fragmentCompiles {
        return false, true;
      }
      if !gl.links {
        program := 0;
        return false, true;
      }
      return true, false;
    }

    /** evict: releases the GL program and forgets every memoised index and
        the norm transform, so the next bind looks the uniforms up again.
        A link failure is remembered. */
    method Evict()
      modifies this
      ensures program == 0 && !normTransformsSet && uniformsNeedRebind
      ensures alpha == Unsearched && color == Unsearched && offset == Unsearched
      ensures failedToLink == old(failedToLink) && uniforms == old(uniforms) && samplers == old(samplers)
      ensures capabilities == old(capabilities)
    {
      normTransformsSet := false;
      alpha := Unsearched;
      color := Unsearched;
      offset := Unsearched;
      uniformsNeedRebind := true;
      program := 0;
    }

    /** bind: refuses a program that failed to link; otherwise uses it and
        looks the uniform locations up when they need rebinding. */
    method Bind() returns (ok: bool, located: bool)
      requires failedToLink || IsHydrated()
      modifies this
      ensures ok <==> !failedToLink
      ensures located <==> ok && old(uniformsNeedRebind)
      ensures uniformsNeedRebind == (old(uniformsNeedRebind) && !ok)
      ensures program == old(program) && uniforms == old(uniforms) && samplers == old(samplers)
      ensures failedToLink == old(failedToLink)
    {
      if failedToLink {
        return false, false;
      }
      located := uniformsNeedRebind;
      uniformsNeedRebind := false;
      ok := true;
    }

    /** getUniformIndex: the first uniform with the name, or -1. */
    method GetUniformIndex(name: string) returns (idx: int)
      ensures idx == FirstIndex(uniforms, name)
    {
      idx := 0;
      while idx < |uniforms|
        invariant 0 <= idx <= |uniforms|
        invariant forall j :: 0 <= j < idx ==> uniforms[j].name != name
      {
        if uniforms[idx].name == name {
          return;
        }
        idx := idx + 1;
      }
      idx := -1;
    }

    /** getUniform: the first uniform with the name, if any. */
    method GetUniform(name: string) returns (u: Option<Uniform>)
      ensures u.Some? <==> exists j :: 0 <= j < |uniforms| && uniforms[j].name == name
      ensures u.Some? ==> u.value == uniforms[FirstIndex(uniforms, name)]
    {
      var idx := GetUniformIndex(name);
      if idx >= 0 {
        u := Some(uniforms[idx]);
      } else {
        u := None;
      }
    }

    method GetAlphaUniformIndex() returns (idx: int)
      modifies this
      ensures (idx, alpha) == MemoLookup(uniforms, "alpha", old(alpha))
      ensures uniforms == old(uniforms) && color == old(color) && program == old(program)
    {
      if !alpha.present {
        return -1;
      }
      if alpha.index == -1 {
        var i := GetUniformIndex("alpha");
        alpha := Memo(i, i != -1);
      }
      idx := alpha.index;
    }

    method GetColorUniformIndex() returns (idx: int)
      modifies this
      ensures (idx, color) == MemoLookup(uniforms, "color", old(color))
      ensures uniforms == old(uniforms) && alpha == old(alpha) && program == old(program)
    {
      if !color.present {
        return -1;
      }
      if color.index == -1 {
        var i := GetUniformIndex("color");
        color := Memo(i, i != -1);
      }
      idx := color.index;
    }

    /** setNormTransform: uploads the matrix only for a program with the
        Norm capability, and only once until the program is evicted. */
    method SetNormTransform() returns (uploaded: bool)
      modifies this
      ensures uploaded <==> !old(normTransformsSet) && NormMask in capabilities
      ensures normTransformsSet
      ensures uniforms == old(uniforms) && program == old(program) && capabilities == old(capabilities)
    {
      if normTransformsSet {
        return false;
      }
      uploaded := NormMask in capabilities;
      normTransformsSet := true;
    }
  }
}
