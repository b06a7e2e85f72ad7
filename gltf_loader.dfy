/** The glTF 2.0 loader's decoding tables and its mesh assembly
    (VROGLTFLoader.cpp): attribute names, accessor component types and
    types, primitive modes and sampler modes, the vertex-index element and
    attribute sources built for each primitive, the default material, and
    the per-load caches of buffer windows and textures.
    Numeric codes are those of the Khronos glTF 2.0 specification
    (accessors, section 3.6.2; primitive modes, section 3.7.2.1; samplers,
    section 3.8.4). */
module GltfLoader {
  import opened Wrappers
  import opened Strings

  // ---------------------------------------------------------------------
  // Attribute names
  // ---------------------------------------------------------------------

  datatype Semantic = Vertex | Normal | Tangent | Texcoord | Color | Invalid

  /** getGeometryAttribute: the five supported attribute names, compared
      without regard to case; JOINTS_0, WEIGHTS_0 and anything else are
      Invalid. */
  function GetGeometryAttribute(name: string): Semantic
  {
    if EqualsIgnoreCase(name, "POSITION") then Vertex
    else if EqualsIgnoreCase(name, "NORMAL") then Normal
    else if EqualsIgnoreCase(name, "TANGENT") then Tangent
    else if EqualsIgnoreCase(name, "TEXCOORD_0") then Texcoord
    else if EqualsIgnoreCase(name, "COLOR_0") then Color
    else Invalid
  }

  /** The glTF attribute name of a supported semantic. */
  function AttributeName(s: Semantic): string
    requires s != Invalid
  {
    match s
    case Vertex => "POSITION"
    case Normal => "NORMAL"
    case Tangent => "TANGENT"
    case Texcoord => "TEXCOORD_0"
    case Color => "COLOR_0"
  }

  /** A name maps to a supported semantic exactly when it equals that
      semantic's glTF name up to case; every other name is Invalid. */
  lemma {:induction false} GeometryAttributeIff(name: string, s: Semantic)
    requires s != Invalid
    ensures GetGeometryAttribute(name) == s <==> EqualsIgnoreCase(name, AttributeName(s))
    ensures GetGeometryAttribute(name) == Invalid
            <==> forall t :: t != Invalid ==> !EqualsIgnoreCase(name, AttributeName(t))
  {
    // TANGENT and COLOR_0 have the same length and differ in their first letter.
    if EqualsIgnoreCase(name, "TANGENT") {
      assert LowerAscii(name[0]) == 't';
      assert !EqualsIgnoreCase(name, "COLOR_0");
    }
    if EqualsIgnoreCase(name, "COLOR_0") {
      assert LowerAscii(name[0]) == 'c';
    }
    assert AttributeName(Vertex) == "POSITION";
    assert AttributeName(Normal) == "NORMAL";
    assert AttributeName(Tangent) == "TANGENT";
    assert AttributeName(Texcoord) == "TEXCOORD_0";
    assert AttributeName(Color) == "COLOR_0";
  }

  /** Names that agree up to case map to the same semantic. */
  lemma GeometryAttributeIgnoresCase(a: string, b: string)
    requires EqualsIgnoreCase(a, b)
    ensures GetGeometryAttribute(a) == GetGeometryAttribute(b)
  {
    forall n: string
      ensures EqualsIgnoreCase(a, n) <==> EqualsIgnoreCase(b, n)
    {
      EqualsIgnoreCaseSym(a, b);
      if EqualsIgnoreCase(a, n) {
        EqualsIgnoreCaseTrans(b, a, n);
      }
      if EqualsIgnoreCase(b, n) {
        EqualsIgnoreCaseTrans(a, b, n);
      }
    }
  }

  /** Each supported semantic is recovered from its own name. */
  lemma AttributeNameRoundTrip(s: Semantic)
    requires s != Invalid
    ensures GetGeometryAttribute(AttributeName(s)) == s
  {
    GeometryAttributeIff(AttributeName(s), s);
  }

  // ---------------------------------------------------------------------
  // Accessor component types and types
  // ---------------------------------------------------------------------

  datatype ComponentType = Byte | UnsignedByte | Short | UnsignedShort | UnsignedInt | Float

  /** The glTF componentType code of each supported component type. */
  function ComponentTypeCode(t: ComponentType): int
  {
    match t
    case Byte => 5120
    case UnsignedByte => 5121
    case Short => 5122
    case UnsignedShort => 5123
    case UnsignedInt => 5125
    case Float => 5126
  }

  /** Size in bytes of one component. The loader's component enumerators
      carry these sizes as their values (it casts an enumerator to int to
      get the size), so two component types of the same size compare
      equal in the loader. */
  function ComponentSize(t: ComponentType): int
  {
    match t
    case Byte => 1
    case UnsignedByte => 1
    case Short => 2
    case UnsignedShort => 2
    case UnsignedInt => 4
    case Float => 4
  }

  /** getComponentType: succeeds exactly for the six glTF component types. */
  function GetComponentType(code: int): (r: Option<ComponentType>)
    ensures r.Some? <==> code in {5120, 5121, 5122, 5123, 5125, 5126}
    ensures r.Some? ==> ComponentTypeCode(r.value) == code
  {
    match code
    case 5120 => Some(Byte)
    case 5121 => Some(UnsignedByte)
    case 5122 => Some(Short)
    case 5123 => Some(UnsignedShort)
    case 5125 => Some(UnsignedInt)
    case 5126 => Some(Float)
    case _ => None
  }

  lemma ComponentTypeRoundTrip(t: ComponentType)
    ensures GetComponentType(ComponentTypeCode(t)) == Some(t)
  {
  }

  datatype AccessorType = Scalar | Vec2 | Vec3 | Vec4 | Mat2 | Mat3 | Mat4

  /** The glTF name of each accessor type. */
  function TypeName(t: AccessorType): string
  {
    match t
    case Scalar => "SCALAR"
    case Vec2 => "VEC2"
    case Vec3 => "VEC3"
    case Vec4 => "VEC4"
    case Mat2 => "MAT2"
    case Mat3 => "MAT3"
    case Mat4 => "MAT4"
  }

  /** Number of components of one element. */
  function ComponentCount(t: AccessorType): int
  {
    match t
    case Scalar => 1
    case Vec2 => 2
    case Vec3 => 3
    case Vec4 => 4
    case Mat2 => 4
    case Mat3 => 9
    case Mat4 => 16
  }

  /** getComponent: succeeds exactly for SCALAR, VEC2-4 and MAT2-4. */
  function GetComponent(name: string): (r: Option<AccessorType>)
    ensures r.Some? <==> name in {"SCALAR", "VEC2", "VEC3", "VEC4", "MAT2", "MAT3", "MAT4"}
    ensures r.Some? ==> TypeName(r.value) == name
  {
    if name == "SCALAR" then Some(Scalar)
    else if name == "VEC2" then Some(Vec2)
    else if name == "VEC3" then Some(Vec3)
    else if name == "VEC4" then Some(Vec4)
    else if name == "MAT2" then Some(Mat2)
    else if name == "MAT3" then Some(Mat3)
    else if name == "MAT4" then Some(Mat4)
    else None
  }

  lemma AccessorTypeRoundTrip(t: AccessorType)
    ensures GetComponent(TypeName(t)) == Some(t)
  {
  }

  // ---------------------------------------------------------------------
  // Primitive modes and sampler modes
  // ---------------------------------------------------------------------

  datatype PrimitiveType = Point | Line | Triangle | TriangleStrip

  /** The glTF mode code of each supported primitive type. */
  function PrimitiveModeCode(t: PrimitiveType): int
  {
    match t
    case Point => 0
    case Line => 1
    case Triangle => 4
    case TriangleStrip => 5
  }

  /** getPrimitiveType: POINTS, LINES, TRIANGLES and TRIANGLE_STRIP are
      accepted; LINE_LOOP (2), LINE_STRIP (3), TRIANGLE_FAN (6) and unknown
      modes are refused. */
  function GetPrimitiveType(mode: int): (r: Option<PrimitiveType>)
    ensures r.Some? <==> mode in {0, 1, 4, 5}
    ensures r.Some? ==> PrimitiveModeCode(r.value) == mode
  {
    match mode
    case 1 => Some(Line)
    case 0 => Some(Point)
    case 4 => Some(Triangle)
    case 5 => Some(TriangleStrip)
    case _ => None
  }

  lemma PrimitiveTypeRoundTrip(t: PrimitiveType)
    ensures GetPrimitiveType(PrimitiveModeCode(t)) == Some(t)
  {
  }

  datatype FilterMode = Nearest | Linear

  const FilterNearest := 9728
  const FilterLinear := 9729
  const FilterNearestMipmapNearest := 9984
  const FilterLinearMipmapNearest := 9985
  const FilterNearestMipmapLinear := 9986
  const FilterLinearMipmapLinear := 9987

  /** getFilterMode: the modes that pick from a single mip level by nearest
      texel, and LINEAR_MIPMAP_NEAREST, give Nearest; every other mode,
      known or not, gives Linear. */
  function GetFilterMode(mode: int): (f: FilterMode)
    ensures f == Nearest <==> mode in {FilterNearest, FilterNearestMipmapNearest, FilterLinearMipmapNearest}
    ensures mode in {FilterLinear, FilterNearestMipmapLinear, FilterLinearMipmapLinear} ==> f == Linear
  {
    if mode == FilterNearest then Nearest
    else if mode == FilterLinear then Linear
    else if mode == FilterNearestMipmapNearest then Nearest
    else if mode == FilterLinearMipmapNearest then Nearest
    else if mode == FilterNearestMipmapLinear then Linear
    else if mode == FilterLinearMipmapLinear then Linear
    else Linear
  }

  datatype WrapMode = ClampToBorder | Mirror | Repeat

  const WrapClampToEdge := 33071
  const WrapMirroredRepeat := 33648
  const WrapRepeat := 10497

  /** getWrappingMode: CLAMP_TO_EDGE becomes ClampToBorder, MIRRORED_REPEAT
      becomes Mirror, REPEAT and every unknown mode become Repeat. */
  function GetWrappingMode(mode: int): (w: WrapMode)
    ensures w == ClampToBorder <==> mode == WrapClampToEdge
    ensures w == Mirror <==> mode == WrapMirroredRepeat
    ensures w == Repeat <==> mode != WrapClampToEdge && mode != WrapMirroredRepeat
  {
    if mode == WrapClampToEdge then ClampToBorder
    else if mode == WrapMirroredRepeat then Mirror
    else Repeat
  }

  // ---------------------------------------------------------------------
  // The parsed model
  // ---------------------------------------------------------------------

  datatype Accessor = Accessor(bufferView: int, byteOffset: int, componentType: int, count: int, typeName: string)
  datatype BufferView = BufferView(buffer: int, byteOffset: int, byteLength: int, byteStride: int)
  /** A primitive's attributes in the order of their names (a std::map). */
  datatype Primitive = Primitive(attributes: seq<(string, int)>, indices: int, material: int, mode: int)
  datatype Mesh = Mesh(name: string, primitives: seq<Primitive>)
  datatype Texture = Texture(source: int, sampler: int)
  datatype Sampler = Sampler(magFilter: int, minFilter: int, wrapS: int, wrapT: int)
  /** Whether the platform image decoder accepts the image's bytes. */
  datatype Image = Image(decodes: bool)

  datatype Model = Model(accessors: seq<Accessor>, bufferViews: seq<BufferView>, textures: seq<Texture>,
                         samplers: seq<Sampler>, images: seq<Image>)

  /** Accessor i exists and so does its buffer view. */
  predicate AccessorIn(model: Model, i: int)
  {
    0 <= i < |model.accessors| && 0 <= model.accessors[i].bufferView < |model.bufferViews|
  }

  /** Every index the loader follows for this primitive refers to an
      existing entry. */
  predicate PrimitiveIndexed(model: Model, p: Primitive)
  {
    (p.indices >= 0 ==> AccessorIn(model, p.indices))
    && forall a :: a in p.attributes && GetGeometryAttribute(a.0) != Invalid ==> AccessorIn(model, a.1)
  }

  /** The loader accepts a manifest only when the parser reported no error,
      succeeded, and the asset version is at least 2.0. */
  function AcceptManifest(errorText: string, parsed: bool, version: real): (ok: bool)
    ensures ok ==> version >= 2.0
    ensures ok <==> errorText == [] && parsed && !(version < 2.0)
  {
    if errorText != [] then false
    else if !parsed then false
    else !(version < 2.0)
  }

  // ---------------------------------------------------------------------
  // Vertex-index elements
  // ---------------------------------------------------------------------

  /** Bytes between consecutive elements: the buffer view's stride, or the
      size of one element when the view gives none. */
  function Stride(view: BufferView, t: AccessorType, c: ComponentType): int
  {
    if view.byteStride == 0 then ComponentCount(t) * ComponentSize(c) else view.byteStride
  }

  /** The index guard as written: it refuses only when the type is not
      SCALAR and, at the same time, the component equals none of
      UNSIGNED_BYTE, UNSIGNED_INT, UNSIGNED_SHORT and SHORT. Components
      compare by their enumerator values, which are their sizes. */
  predicate IndexGuardRefusesAsWritten(t: AccessorType, c: ComponentType): (refused: bool)
    ensures refused ==> IndexGuardRefuses(t, c)
  {
    && t != Scalar
    && ComponentSize(c) != ComponentSize(UnsignedByte)
    && ComponentSize(c) != ComponentSize(UnsignedInt)
    && ComponentSize(c) != ComponentSize(UnsignedShort)
    && ComponentSize(c) != ComponentSize(Short)
  }

  /** The index guard as intended: indices must be SCALAR and of one of the
      four integer component types the guard lists. */
  predicate IndexGuardRefuses(t: AccessorType, c: ComponentType): (refused: bool)
    ensures t != Scalar ==> refused
    ensures c == Float || c == Byte ==> refused
  {
    t != Scalar || (c != UnsignedByte && c != UnsignedInt && c != UnsignedShort && c != Short)
  }

  /** Every component type has the size of one the written guard lists, so
      the guard refuses nothing. */
  lemma IndexGuardAsWrittenRefusesNothing(t: AccessorType, c: ComponentType)
    ensures !IndexGuardRefusesAsWritten(t, c)
  {
  }

  /** The written guard lets SCALAR and VEC3 floating-point indices
      through; the intended guard refuses both. */
  lemma IndexGuardAsWrittenAcceptsFloats()
    ensures !IndexGuardRefusesAsWritten(Scalar, Float) && IndexGuardRefuses(Scalar, Float)
    ensures !IndexGuardRefusesAsWritten(Vec3, Float) && IndexGuardRefuses(Vec3, Float)
  {
  }

  /** The intended guard passes exactly the SCALAR indices of the four
      listed integer types: never BYTE or FLOAT components, never another
      type. */
  lemma IndexGuardPasses(t: AccessorType, c: ComponentType)
    ensures !IndexGuardRefuses(t, c) <==> t == Scalar && c in {UnsignedByte, UnsignedShort, UnsignedInt, Short}
    ensures !IndexGuardRefuses(t, c) ==> ComponentSize(c) in {1, 2, 4}
  {
  }

  /** Whether an attribute's data is floating point, as the loader tests
      it: a comparison of enumerator values with FLOAT's. */
  predicate IsFloat(c: ComponentType)
  {
    ComponentSize(c) == ComponentSize(Float)
  }

  /** The test holds for FLOAT and, through the shared value, for
      UNSIGNED_INT; for the component types the glTF 2.0 specification
      allows on the five supported attributes (FLOAT, UNSIGNED_BYTE and
      UNSIGNED_SHORT, section 3.7.2.1) it holds exactly for FLOAT. */
  lemma IsFloatBySize(c: ComponentType)
    ensures IsFloat(c) <==> c == Float || c == UnsignedInt
    ensures c in {Float, UnsignedByte, UnsignedShort} ==> (IsFloat(c) <==> c == Float)
  {
  }

  /** The window of a buffer that holds the indices of one primitive. */
  datatype Element = Element(primitiveType: PrimitiveType, bytesPerIndex: int, primitiveCount: int,
                             buffer: int, dataOffset: int, dataLength: int)

  /** What processVertexElement checks before it builds an element: a
      supported mode, an indices accessor, a known component type and type,
      and SCALAR integer indices. */
  predicate ElementAccepted(model: Model, p: Primitive)
    requires PrimitiveIndexed(model, p)
  {
    && GetPrimitiveType(p.mode).Some?
    && p.indices >= 0
    && var a := model.accessors[p.indices];
       GetComponentType(a.componentType).Some? && GetComponent(a.typeName).Some?
       && !IndexGuardRefuses(GetComponent(a.typeName).value, GetComponentType(a.componentType).value)
  }

  /** processVertexElement: fails for an unsupported mode, for a primitive
      without indices, for an unknown component type or type, and for
      indices that are not SCALAR integers; otherwise the element covers
      count * stride bytes from the accessor's offset within its view, and
      records the number of primitives the index count draws
      (`primitiveCount` stands for VROGeometryUtilGetPrimitiveCount). */
  function ProcessVertexElement(model: Model, p: Primitive, primitiveCount: (int, PrimitiveType) -> int)
    : (r: Option<Element>)
    requires PrimitiveIndexed(model, p)
    ensures r.Some? <==> ElementAccepted(model, p)
    ensures r.Some? ==>
      var a := model.accessors[p.indices];
      var view := model.bufferViews[a.bufferView];
      var c := GetComponentType(a.componentType).value;
      && r.value.primitiveType == GetPrimitiveType(p.mode).value
      && a.typeName == "SCALAR" && r.value.bytesPerIndex == ComponentSize(c)
      && r.value.bytesPerIndex in {1, 2, 4}
      && r.value.primitiveCount == primitiveCount(a.count, r.value.primitiveType)
      && r.value.buffer == view.buffer
      && r.value.dataOffset == a.byteOffset + view.byteOffset
      && r.value.dataLength == a.count * Stride(view, Scalar, c)
  {
    match GetPrimitiveType(p.mode)
    case None => None
    case Some(primitiveType) =>
      if p.indices < 0 then None
      else
        var a := model.accessors[p.indices];
        match (GetComponentType(a.componentType), GetComponent(a.typeName))
        case (Some(c), Some(t)) =>
          if IndexGuardRefuses(t, c) then None
          else
            var view := model.bufferViews[a.bufferView];
            Some(Element(primitiveType, ComponentSize(c), primitiveCount(a.count, primitiveType), view.buffer,
                         a.byteOffset + view.byteOffset, a.count * Stride(view, t, c)))
        case _ => None
  }

  // ---------------------------------------------------------------------
  // Attribute sources
  // ---------------------------------------------------------------------

  /** The cached window over a whole buffer view. */
  datatype DataWindow = DataWindow(buffer: int, length: int, offset: int)

  function WindowOf(view: BufferView): DataWindow
  {
    DataWindow(view.buffer, view.byteLength, view.byteOffset)
  }

  /** One vertex attribute of a primitive, bound to the element at
      elementIndex. */
  datatype Source = Source(semantic: Semantic, data: DataWindow, vertexCount: int, isFloat: bool,
                           componentsPerVertex: int, bytesPerComponent: int, offset: int, stride: int,
                           elementIndex: int)

  /** The source of one supported attribute, or None when its accessor has
      an unknown component type or type. */
  function AttributeSource(model: Model, s: Semantic, accessorIndex: int, elementIndex: int): Option<Source>
    requires AccessorIn(model, accessorIndex)
  {
    var a := model.accessors[accessorIndex];
    match (GetComponentType(a.componentType), GetComponent(a.typeName))
    case (Some(c), Some(t)) =>
      var view := model.bufferViews[a.bufferView];
      Some(Source(s, WindowOf(view), a.count, IsFloat(c), ComponentCount(t), ComponentSize(c),
                  a.byteOffset, Stride(view, t, c), elementIndex))
    case _ => None
  }

  /** processVertexAttributes, as a value: the sources of the supported
      attributes in order, unsupported names skipped; None as soon as a
      supported attribute has an unknown component type or type. */
  function AttributeSources(model: Model, attributes: seq<(string, int)>, elementIndex: int): (r: Option<seq<Source>>)
    requires forall a :: a in attributes && GetGeometryAttribute(a.0) != Invalid ==> AccessorIn(model, a.1)
    ensures r.Some? ==> forall i :: 0 <= i < |r.value| ==> r.value[i].semantic != Invalid && r.value[i].elementIndex == elementIndex
    ensures r.Some? ==> |r.value| <= |attributes|
    decreases |attributes|
  {
    if attributes == [] then Some([])
    else
      var n := |attributes| - 1;
      var (name, index) := attributes[n];
      match AttributeSources(model, attributes[..n], elementIndex)
      case None => None
      case Some(prefix) =>
        var s := GetGeometryAttribute(name);
        if s == Invalid then Some(prefix)
        else
          match AttributeSource(model, s, index, elementIndex)
          case None => None
          case Some(src) => Some(prefix + [src])
  }

  /** Unsupported attribute names never fail a primitive and never produce
      a source. */
  lemma {:induction false} UnsupportedAttributesSkipped(model: Model, attributes: seq<(string, int)>, elementIndex: int)
    requires forall a :: a in attributes ==> GetGeometryAttribute(a.0) == Invalid
    ensures AttributeSources(model, attributes, elementIndex) == Some([])
    decreases |attributes|
  {
    if attributes != [] {
      UnsupportedAttributesSkipped(model, attributes[..|attributes| - 1], elementIndex);
    }
  }

  // ---------------------------------------------------------------------
  // Meshes
  // ---------------------------------------------------------------------

  /** A primitive's material: the model's material at an index, or the
      default material. */
  datatype MaterialRef = FromModel(index: int) | DefaultMaterial

  datatype Geometry = Geometry(name: string, sources: seq<Source>, elements: seq<Element>, materials: seq<MaterialRef>)

  /** The materials named by the primitives, in order. */
  function NamedMaterials(prims: seq<Primitive>): (r: seq<MaterialRef>)
    ensures |r| <= |prims|
    ensures forall i :: 0 <= i < |r| ==> r[i].FromModel? && r[i].index >= 0
    decreases |prims|
  {
    if prims == [] then []
    else
      var n := |prims| - 1;
      NamedMaterials(prims[..n]) + (if prims[n].material >= 0 then [FromModel(prims[n].material)] else [])
  }

  /** The materials of a mesh: those the primitives name, or one default
      material when none names any. */
  function MeshMaterials(prims: seq<Primitive>): (r: seq<MaterialRef>)
    ensures |r| >= 1
    ensures (forall i :: 0 <= i < |prims| ==> prims[i].material < 0) ==> r == [DefaultMaterial]
    ensures (exists i :: 0 <= i < |prims| && prims[i].material >= 0) ==> r == NamedMaterials(prims)
  {
    NamedMaterialsEmpty(prims);
    var named := NamedMaterials(prims);
    if named == [] then [DefaultMaterial] else named
  }

  /** No primitive names a material exactly when the named list is empty. */
  lemma {:induction false} NamedMaterialsEmpty(prims: seq<Primitive>)
    ensures NamedMaterials(prims) == [] <==> forall i :: 0 <= i < |prims| ==> prims[i].material < 0
    decreases |prims|
  {
    if prims != [] {
      var n := |prims| - 1;
      NamedMaterialsEmpty(prims[..n]);
      assert forall i :: 0 <= i < n ==> prims[..n][i] == prims[i];
    }
  }

  /** Every primitive of the mesh follows only existing indices. */
  predicate MeshIndexed(model: Model, mesh: Mesh)
  {
    forall p :: p in mesh.primitives ==> PrimitiveIndexed(model, p)
  }

  /** A primitive is accepted when both its element and its sources build. */
  predicate PrimitiveBuilds(model: Model, p: Primitive, elementIndex: int)
    requires PrimitiveIndexed(model, p)
  {
    ElementAccepted(model, p) && AttributeSources(model, p.attributes, elementIndex).Some?
  }

  /** The sources of the first k primitives, each bound to its own element. */
  function MeshSources(model: Model, prims: seq<Primitive>): seq<Source>
    requires forall p :: p in prims ==> PrimitiveIndexed(model, p)
    requires forall i :: 0 <= i < |prims| ==> PrimitiveBuilds(model, prims[i], i)
    decreases |prims|
  {
    if prims == [] then []
    else
      var n := |prims| - 1;
      assert prims[n] in prims;
      assert PrimitiveIndexed(model, prims[n]);
      assert PrimitiveBuilds(model, prims[n], n);
      MeshSources(model, prims[..n]) + AttributeSources(model, prims[n].attributes, n).value
  }

  /** The first i primitives have built, giving these elements, sources and
      named materials. */
  predicate MeshPrefix(model: Model, primitiveCount: (int, PrimitiveType) -> int, prims: seq<Primitive>, i: int,
                       elements: seq<Element>, sources: seq<Source>, materials: seq<MaterialRef>)
    requires forall p :: p in prims ==> PrimitiveIndexed(model, p)
  {
    && 0 <= i <= |prims|
    && (forall j :: 0 <= j < i ==> PrimitiveBuilds(model, prims[j], j))
    && |elements| == i
    && (forall j :: 0 <= j < i ==> elements[j] == ProcessVertexElement(model, prims[j], primitiveCount).value)
    && sources == MeshSources(model, prims[..i])
    && materials == NamedMaterials(prims[..i])
  }

  lemma MeshPrefixStep(model: Model, primitiveCount: (int, PrimitiveType) -> int, prims: seq<Primitive>, i: int,
                       elements: seq<Element>, sources: seq<Source>, materials: seq<MaterialRef>)
    requires forall p :: p in prims ==> PrimitiveIndexed(model, p)
    requires MeshPrefix(model, primitiveCount, prims, i, elements, sources, materials)
    requires i < |prims| && PrimitiveBuilds(model, prims[i], i)
    ensures MeshPrefix(model, primitiveCount, prims, i + 1,
                       elements + [ProcessVertexElement(model, prims[i], primitiveCount).value],
                       sources + AttributeSources(model, prims[i].attributes, i).value,
                       materials + (if prims[i].material >= 0 then [FromModel(prims[i].material)] else []))
  {
    assert prims[..i + 1][..i] == prims[..i];
    assert prims[..i + 1][i] == prims[i];
  }

  // ---------------------------------------------------------------------
  // The loader's caches
  // ---------------------------------------------------------------------

  /** A texture made from an image, with its sampler's wrap and filter modes
      and whether it is in sRGB space. */
  datatype TextureObject = TextureObject(image: int, srgb: bool, wrapS: WrapMode, wrapT: WrapMode,
                                         magFilter: FilterMode, minFilter: FilterMode)

  /** The texture built for a texture entry with a valid sampler, or the
      defaults (Repeat, Linear) without one. */
  function BuildTexture(model: Model, t: Texture, srgb: bool): (r: TextureObject)
    requires t.sampler < |model.samplers|
    ensures t.sampler < 0 ==> r.wrapS == Repeat && r.wrapT == Repeat && r.magFilter == Linear && r.minFilter == Linear
    ensures 0 <= t.sampler ==>
      var s := model.samplers[t.sampler];
      r.wrapS == GetWrappingMode(s.wrapS) && r.wrapT == GetWrappingMode(s.wrapT)
      && r.magFilter == GetFilterMode(s.magFilter) && r.minFilter == GetFilterMode(s.minFilter)
    ensures r.image == t.source && r.srgb == srgb
  {
    if t.sampler >= 0 then
      var s := model.samplers[t.sampler];
      TextureObject(t.source, srgb, GetWrappingMode(s.wrapS), GetWrappingMode(s.wrapT),
                    GetFilterMode(s.magFilter), GetFilterMode(s.minFilter))
    else TextureObject(t.source, srgb, Repeat, Repeat, Linear, Linear)
  }

  /** The loader during one load: the parsed model and the caches of buffer
      windows (keyed by buffer view) and textures (keyed by image). */
  class Loader {
    const model: Model
    var dataCache: map<int, DataWindow>
    var textureCache: map<int, TextureObject>

    /** Every cached window is the window of its buffer view, and every
      cached texture was made from its own, decodable image. */
    predicate Valid()
      reads this
    {
      && (forall k :: k in dataCache ==> 0 <= k < |model.bufferViews| && dataCache[k] == WindowOf(model.bufferViews[k]))
      && (forall k :: k in textureCache ==> 0 <= k < |model.images| && model.images[k].decodes && textureCache[k].image == k)
    }

    /** A load starts with both caches cleared. */
    constructor(model: Model)
      ensures this.model == model && dataCache == map[] && textureCache == map[]
      ensures Valid()
    {
      this.model := model;
      dataCache := map[];
      textureCache := map[];
    }

    /** processVertexAttributes: appends a source per supported attribute,
      creating the window of each buffer view on first use. */
    method ProcessVertexAttributes(attributes: seq<(string, int)>, elementIndex: int) returns (r: Option<seq<Source>>)
      requires Valid()
      requires forall a :: a in attributes && GetGeometryAttribute(a.0) != Invalid ==> AccessorIn(model, a.1)
      modifies this
      ensures Valid()
      ensures r == AttributeSources(model, attributes, elementIndex)
      ensures textureCache == old(textureCache)
      ensures forall k :: k in old(dataCache) ==> k in dataCache
    {
      var sources: seq<Source> := [];
      var i := 0;
      while i < |attributes|
        invariant 0 <= i <= |attributes|
        invariant Valid()
        invariant textureCache == old(textureCache)
        invariant forall k :: k in old(dataCache) ==> k in dataCache
        invariant AttributeSources(model, attributes[..i], elementIndex) == Some(sources)
      {
        assert attributes[..i + 1][..i] == attributes[..i];
        assert attributes[..i + 1][i] == attributes[i];
        var (name, index) := attributes[i];
        var semantic := GetGeometryAttribute(name);
        if semantic == Invalid {
          i := i + 1;
          continue;
        }
        assert attributes[i] in attributes;
        var a := model.accessors[index];
        var c := GetComponentType(a.componentType);
        var t := GetComponent(a.typeName);
        if c.None? || t.None? {
          AttributeSourcesFailureSticks(model, attributes, elementIndex, i + 1);
          return None;
        }
        var view := model.bufferViews[a.bufferView];
        if a.bufferView !in dataCache {
          dataCache := dataCache[a.bufferView := WindowOf(view)];
        }
        var data := dataCache[a.bufferView];
        var src := Source(semantic, data, a.count, IsFloat(c.value), ComponentCount(t.value), ComponentSize(c.value),
                          a.byteOffset, Stride(view, t.value, c.value), elementIndex);
        sources := sources + [src];
        i := i + 1;
      }
      assert attributes[..i] == attributes;
      return Some(sources);
    }

    /** processMesh: fails for a mesh without primitives and as soon as a
      primitive's element or sources fail; otherwise the geometry has one
      element per primitive, the sources of all primitives bound to their
      elements, and the named materials or a single default one. */
    method ProcessMesh(mesh: Mesh, primitiveCount: (int, PrimitiveType) -> int) returns (r: Option<Geometry>)
      requires Valid()
      requires MeshIndexed(model, mesh)
      modifies this
      ensures Valid()
      ensures textureCache == old(textureCache)
      ensures |mesh.primitives| == 0 ==> r.None?
      ensures r.Some? <==> |mesh.primitives| != 0
                           && forall i :: 0 <= i < |mesh.primitives| ==> PrimitiveBuilds(model, mesh.primitives[i], i)
      ensures r.Some? ==>
        && |r.value.elements| == |mesh.primitives|
        && (forall i :: 0 <= i < |mesh.primitives| ==> r.value.elements[i] == ProcessVertexElement(model, mesh.primitives[i], primitiveCount).value)
        && r.value.sources == MeshSources(model, mesh.primitives)
        && r.value.materials == MeshMaterials(mesh.primitives)
        && r.value.name == mesh.name
    {
      var prims := mesh.primitives;
      if |prims| == 0 {
        return None;
      }
      var sources: seq<Source> := [];
      var elements: seq<Element> := [];
      var materials: seq<MaterialRef> := [];
      var i := 0;
      while i < |prims|
        invariant 0 <= i <= |prims|
        invariant Valid()
        invariant textureCache == old(textureCache)
        invariant MeshPrefix(model, primitiveCount, prims, i, elements, sources, materials)
      {
        var p := prims[i];
        assert p in prims;
        var element := ProcessVertexElement(model, p, primitiveCount);
        var attributeSources := ProcessVertexAttributes(p.attributes, i);
        if element.None? || attributeSources.None? {
          return None;
        }
        MeshPrefixStep(model, primitiveCount, prims, i, elements, sources, materials);
        elements := elements + [element.value];
        sources := sources + attributeSources.value;
        if p.material >= 0 {
          materials := materials + [FromModel(p.material)];
        }
        i := i + 1;
      }
      assert prims[..i] == prims;
      NamedMaterialsEmpty(prims);
      if |materials| == 0 {
        materials := [DefaultMaterial];
      }
      return Some(Geometry(mesh.name, sources, elements, materials));
    }

    /** getTexture for a texture entry: nothing for a negative image source;
      the cached texture for an image already seen; otherwise a new texture
      from the image and the sampler, cached under the image index, or
      nothing when the image does not decode. */
    method GetTexture(t: Texture, srgb: bool) returns (r: Option<TextureObject>)
      requires Valid()
      requires t.source < |model.images| && t.sampler < |model.samplers|
      modifies this
      ensures Valid()
      ensures dataCache == old(dataCache)
      ensures t.source < 0 ==> r.None? && textureCache == old(textureCache)
      ensures t.source in old(textureCache) ==> r == Some(old(textureCache)[t.source]) && textureCache == old(textureCache)
      ensures 0 <= t.source && t.source !in old(textureCache) && !model.images[t.source].decodes
              ==> r.None? && textureCache == old(textureCache)
      ensures 0 <= t.source && t.source !in old(textureCache) && model.images[t.source].decodes
              ==> r == Some(BuildTexture(model, t, srgb)) && textureCache == old(textureCache)[t.source := r.value]
      ensures r.Some? ==> r.value.image == t.source && t.source in textureCache && textureCache[t.source] == r.value
    {
      if t.source < 0 {
        return None;
      }
      if t.source in textureCache {
        return Some(textureCache[t.source]);
      }
      if !model.images[t.source].decodes {
        return None;
      }
      var texture := BuildTexture(model, t, srgb);
      textureCache := textureCache[t.source := texture];
      return Some(texture);
    }
  }

  /** Once a supported attribute fails, every longer list fails. */
  lemma {:induction false} AttributeSourcesFailureSticks(model: Model, attributes: seq<(string, int)>, elementIndex: int, k: nat)
    requires forall a :: a in attributes && GetGeometryAttribute(a.0) != Invalid ==> AccessorIn(model, a.1)
    requires 0 < k <= |attributes|
    requires var a := attributes[k - 1];
      GetGeometryAttribute(a.0) != Invalid
      && AttributeSource(model, GetGeometryAttribute(a.0), a.1, elementIndex).None?
    ensures AttributeSources(model, attributes, elementIndex).None?
    decreases |attributes|
  {
    var n := |attributes| - 1;
    if k <= n {
      assert attributes[..n][k - 1] == attributes[k - 1];
      AttributeSourcesFailureSticks(model, attributes[..n], elementIndex, k);
    } else {
      var prev := AttributeSources(model, attributes[..n], elementIndex);
    }
  }
}
