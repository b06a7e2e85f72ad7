/** VROMorpher: blend shapes. A morpher keeps a base target and named morph
    targets, each holding per-semantic vertex data either as GPU geometry
    sources or as CPU vertex vectors; it converts between the two forms when
    the compute location changes, chooses which targets fit the seven morph
    attribute slots of the GPU path, and rewrites the geometry's sources on
    update. Floats are exact reals. */
module Morpher {
  import opened Wrappers

  /** kMaxSupportedAttirbutes: the number of morph attribute slots. */
  const MaxSupportedAttributes := 7

  datatype Semantic = Vertex | Normal | Tangent | Morph(slot: nat) | OtherSemantic(code: int)

  datatype ComputeLocation = CPU | GPU | Hybrid

  datatype Vec4 = Vec4(x: real, y: real, z: real, w: real)

  /** A geometry source: its semantic, the element it belongs to, and its
      packed float data. */
  datatype GeoSource = GeoSource(semantic: Semantic, elementIndex: int, vertexCount: nat,
                                 components: nat, data: seq<real>)

  /** VROMorphTarget: GPU form holds `sources`, CPU form holds `vecs`. */
  datatype MorphTarget = MorphTarget(sources: map<Semantic, GeoSource>,
                                     vecs: map<Semantic, seq<Vec4>>,
                                     startWeight: real, endWeight: real,
                                     isCPU: bool, isActive: bool)

  /** A freshly made target (VROMorphTarget's declaration is not part of this
      model: its weights are taken to start at 0 and isActive at false). */
  function Fresh(): MorphTarget
  {
    MorphTarget(map[], map[], 0.0, 0.0, false, false)
  }

  /** VRO_MORPH_TYPES: the semantics a morph can change. */
  predicate IsMorphType(t: Semantic)
  {
    t == Vertex || t == Normal || t == Tangent
  }

  function VecOf(t: MorphTarget, sem: Semantic): seq<Vec4>
  {
    if sem in t.vecs then t.vecs[sem] else []
  }

  // ---------------------------------------------------------------------
  // Keying a source list by semantic (later sources replace earlier ones)

  function Keyed(srcs: seq<GeoSource>): map<Semantic, GeoSource>
  {
    if srcs == [] then map[]
    else Keyed(srcs[..|srcs| - 1])[srcs[|srcs| - 1].semantic := srcs[|srcs| - 1]]
  }

  /** The keys are the semantics that occur, and each maps to the last source
      carrying it. */
  lemma KeyedLast(srcs: seq<GeoSource>, sem: Semantic)
    ensures sem in Keyed(srcs) <==> exists i :: 0 <= i < |srcs| && srcs[i].semantic == sem
    ensures sem in Keyed(srcs) ==>
      exists i :: 0 <= i < |srcs| && Keyed(srcs)[sem] == srcs[i] && srcs[i].semantic == sem &&
        forall j :: i < j < |srcs| ==> srcs[j].semantic != sem
  {
    KeyedDomain(srcs, sem);
    if sem in Keyed(srcs) {
      var i := KeyedValue(srcs, sem);
    }
  }

  lemma {:induction false} KeyedDomain(srcs: seq<GeoSource>, sem: Semantic)
    ensures sem in Keyed(srcs) <==> exists i :: 0 <= i < |srcs| && srcs[i].semantic == sem
  {
    if srcs != [] {
      var n := |srcs| - 1;
      KeyedDomain(srcs[..n], sem);
      if srcs[n].semantic != sem {
        assert (exists i :: 0 <= i < |srcs| && srcs[i].semantic == sem) ==>
          exists i :: 0 <= i < n && srcs[..n][i].semantic == sem;
      }
    }
  }

  /** The index of the source a semantic maps to: the last one carrying it. */
  lemma {:induction false} KeyedValue(srcs: seq<GeoSource>, sem: Semantic) returns (i: nat)
    requires sem in Keyed(srcs)
    ensures i < |srcs| && Keyed(srcs)[sem] == srcs[i] && srcs[i].semantic == sem
    ensures forall j :: i < j < |srcs| ==> srcs[j].semantic != sem
  {
    var n := |srcs| - 1;
    if srcs[n].semantic == sem {
      i := n;
    } else {
      i := KeyedValue(srcs[..n], sem);
    }
  }

  /** The constructor's and addTarget's loop filling a target's source map. */
  method IndexBySemantic(srcs: seq<GeoSource>) returns (m: map<Semantic, GeoSource>)
    ensures m == Keyed(srcs)
  {
    m := map[];
    for i := 0 to |srcs|
      invariant m == Keyed(srcs[..i])
    {
      assert srcs[..i + 1][..i] == srcs[..i];
      m := m[srcs[i].semantic := srcs[i]];
    }
    assert srcs[..|srcs|] == srcs;
  }

  // ---------------------------------------------------------------------
  // Packing vertex vectors into float data (convertVecToGeoSource)

  function Components(t: Semantic): nat
    requires IsMorphType(t)
  {
    if t == Tangent then 4 else 3
  }

  function Comp(v: Vec4, j: nat): real
  {
    if j == 0 then v.x else if j == 1 then v.y else if j == 2 then v.z else v.w
  }

  function VertexFloats(v: Vec4, width: nat): seq<real>
    requires width == 3 || width == 4
  {
    if width == 3 then [v.x, v.y, v.z] else [v.x, v.y, v.z, v.w]
  }

  function Packed(vs: seq<Vec4>, width: nat): (r: seq<real>)
    requires width == 3 || width == 4
    ensures |r| == |vs| * width
  {
    if vs == [] then [] else Packed(vs[..|vs| - 1], width) + VertexFloats(vs[|vs| - 1], width)
  }

  /** Float i*width + j of the packed data is component j of vertex i. */
  lemma {:induction false} PackedAt(vs: seq<Vec4>, width: nat, i: nat, j: nat)
    requires width == 3 || width == 4
    requires i < |vs| && j < width
    ensures i * width + j < |Packed(vs, width)|
    ensures Packed(vs, width)[i * width + j] == Comp(vs[i], j)
  {
    var n := |vs| - 1;
    if i < n {
      PackedAt(vs[..n], width, i, j);
      assert i * width + j < n * width by {
        assert (i + 1) * width <= n * width;
      }
    } else {
      assert i * width + j == |Packed(vs[..n], width)| + j;
    }
  }

  /** One iteration of convertVecToGeoSource's packing loop: the floats of
      one vertex written at position k. */
  method PutVertex(out: array<real>, k: nat, v: Vec4, width: nat)
    requires width == 3 || width == 4
    requires k + width <= out.Length
    modifies out
    ensures out[..k] == old(out[..k])
    ensures out[..k + width] == old(out[..k]) + VertexFloats(v, width)
  {
    out[k] := v.x;
    out[k + 1] := v.y;
    out[k + 2] := v.z;
    if width > 3 {
      out[k + 3] := v.w;
    }
  }

  /** The packing loop of convertVecToGeoSource, filling a new float array. */
  method PackVertices(vs: seq<Vec4>, width: nat) returns (out: array<real>)
    requires width == 3 || width == 4
    ensures fresh(out)
    ensures out[..] == Packed(vs, width)
  {
    out := new real[|vs| * width];
    var k := 0;
    for i := 0 to |vs|
      invariant k == |Packed(vs[..i], width)| && out.Length == |vs| * width
      invariant out[..k] == Packed(vs[..i], width)
    {
      PackedRoom(vs, i, width);
      PutPacked(out, vs, i, k, width);
      k := k + width;
    }
    assert vs[..|vs|] == vs;
    assert out[..] == out[..k];
  }

  lemma PackedRoom(vs: seq<Vec4>, i: nat, width: nat)
    requires width == 3 || width == 4
    requires i < |vs|
    ensures |Packed(vs[..i], width)| + width <= |vs| * width
  {
    MulStep(i, |vs|, width);
  }

  /** One vertex of the packing loop: the first i + 1 vertices are packed. */
  method PutPacked(out: array<real>, vs: seq<Vec4>, i: nat, k: nat, width: nat)
    requires width == 3 || width == 4
    requires i < |vs| && k == |Packed(vs[..i], width)| && k + width <= out.Length
    requires out[..k] == Packed(vs[..i], width)
    modifies out
    ensures out[..k + width] == Packed(vs[..i + 1], width)
  {
    assert vs[..i + 1][..i] == vs[..i];
    PutVertex(out, k, vs[i], width);
  }

  /** convertVecToGeoSource: no source for empty data or a semantic that is
      not a morph type; otherwise a source packing 3 floats per vertex (4 for
      tangents). */
  function VecToSource(vs: seq<Vec4>, sem: Semantic, elementIndex: int): (r: Option<GeoSource>)
    ensures r.Some? <==> |vs| > 0 && IsMorphType(sem)
    ensures r.Some? ==> r.value.semantic == sem && r.value.elementIndex == elementIndex &&
                        r.value.vertexCount == |vs| && r.value.components == Components(sem) &&
                        |r.value.data| == |vs| * Components(sem)
  {
    if |vs| == 0 then None
    else if sem == Tangent then Some(GeoSource(sem, elementIndex, |vs|, 4, Packed(vs, 4)))
    else if sem == Vertex || sem == Normal then Some(GeoSource(sem, elementIndex, |vs|, 3, Packed(vs, 3)))
    else None
  }

  // ---------------------------------------------------------------------
  // Float buffers of the CPU path (resetSrc3/4, addWeightedMorphToSrc3/4)

  /** addWeightedMorphToSrc4 as written: the fourth float receives z·weight. */
  function Contribution4AsWritten(v: Vec4, weight: real): (r: seq<real>)
    ensures |r| == 4 && r[3] == r[2]
  {
    [v.x * weight, v.y * weight, v.z * weight, v.z * weight]
  }

  /** data plus p scaled by weight, element-wise over p's length. */
  function AddScaled(data: seq<real>, p: seq<real>, weight: real): (r: seq<real>)
    requires |p| <= |data|
    ensures |r| == |data|
    ensures forall m :: 0 <= m < |data| ==> r[m] == data[m] + (if m < |p| then p[m] * weight else 0.0)
  {
    seq(|data|, m requires 0 <= m < |data| => data[m] + (if m < |p| then p[m] * weight else 0.0))
  }

  /** A tangent whose handedness w is 1 and whose z is 0 adds nothing to the
      fourth float as written; the corrected buffer gains its w·weight. */
  lemma TangentHandednessDropped()
    ensures Contribution4AsWritten(Vec4(0.0, 0.0, 0.0, 1.0), 1.0)[3] == 0.0
    ensures AddScaled([0.0, 0.0, 0.0, 0.0], Packed([Vec4(0.0, 0.0, 0.0, 1.0)], 4), 1.0)[3] == 1.0
  {
    assert Packed([Vec4(0.0, 0.0, 0.0, 1.0)], 4) == [0.0, 0.0, 0.0, 1.0];
  }

  /** Float i*width + j of the buffer gains component j of vertex i times the
      weight: the meaning of adding a packed morph. */
  lemma WeightedAt(data: seq<real>, morph: seq<Vec4>, weight: real, width: nat, i: nat, j: nat, m: nat)
    requires width == 3 || width == 4
    requires |morph| * width <= |data|
    requires i < |morph| && j < width && m == i * width + j
    ensures m < |data|
    ensures AddScaled(data, Packed(morph, width), weight)[m] == data[m] + Comp(morph[i], j) * weight
  {
    PackedAt(morph, width, i, j);
    AddScaledValue(data, Packed(morph, width), weight, m, Comp(morph[i], j));
  }

  lemma AddScaledValue(data: seq<real>, p: seq<real>, weight: real, m: nat, x: real)
    requires m < |p| <= |data|
    requires p[m] == x
    ensures AddScaled(data, p, weight)[m] == data[m] + x * weight
  {
  }

  /** One iteration of the add loop: vertex v's floats scaled at position k. */
  method AddVertex(out: array<real>, k: nat, v: Vec4, weight: real, width: nat)
    requires width == 3 || width == 4
    requires k + width <= out.Length
    modifies out
    ensures forall m :: 0 <= m < out.Length ==>
      out[m] == old(out[m]) + (if k <= m < k + width then VertexFloats(v, width)[m - k] * weight else 0.0)
  {
    out[k] := out[k] + v.x * weight;
    out[k + 1] := out[k + 1] + v.y * weight;
    out[k + 2] := out[k + 2] + v.z * weight;
    if width > 3 {
      out[k + 3] := out[k + 3] + v.w * weight;
    }
  }

  lemma MulStep(i: nat, n: nat, width: nat)
    requires i < n
    ensures i * width + width == (i + 1) * width <= n * width
  {
  }

  lemma AddScaledStep(start: seq<real>, before: seq<real>, after: seq<real>, q: seq<real>, v: seq<real>, weight: real)
    requires |q| + |v| <= |start| == |before| == |after|
    requires before == AddScaled(start, q, weight)
    requires forall m :: 0 <= m < |after| ==>
      after[m] == before[m] + (if |q| <= m < |q| + |v| then v[m - |q|] * weight else 0.0)
    ensures after == AddScaled(start, q + v, weight)
  {
    var q' := q + v;
    forall m | 0 <= m < |after|
      ensures after[m] == AddScaled(start, q', weight)[m]
    {
      assert before[m] == start[m] + (if m < |q| then q[m] * weight else 0.0);
      if |q| <= m < |q'| {
        assert q'[m] == v[m - |q|];
      } else if m < |q| {
        assert q'[m] == q[m];
      }
    }
  }

  /** One vertex of the weighted add: the first i + 1 vertices are in. */
  method AddMorphVertex(out: array<real>, ghost start: seq<real>, morph: seq<Vec4>, i: nat, k: nat, weight: real, width: nat)
    requires width == 3 || width == 4
    requires i < |morph| && k == i * width && k + width <= out.Length == |start|
    requires |morph| * width <= out.Length
    requires out[..] == AddScaled(start, Packed(morph[..i], width), weight)
    modifies out
    ensures out[..] == AddScaled(start, Packed(morph[..i + 1], width), weight)
  {
    assert morph[..i + 1][..i] == morph[..i];
    ghost var q := Packed(morph[..i], width);
    ghost var before := out[..];
    AddVertex(out, k, morph[i], weight, width);
    assert Packed(morph[..i + 1], width) == q + VertexFloats(morph[i], width);
    AddScaledStep(start, before, out[..], q, VertexFloats(morph[i], width), weight);
  }

  /** addWeightedMorphToSrc3 (width 3) and addWeightedMorphToSrc4 (width 4,
      corrected to add w into the fourth float). */
  method AddWeighted(out: array<real>, morph: seq<Vec4>, weight: real, width: nat)
    requires width == 3 || width == 4
    requires |morph| * width <= out.Length
    modifies out
    ensures out[..] == AddScaled(old(out[..]), Packed(morph, width), weight)
  {
    ghost var start := out[..];
    var k := 0;
    for i := 0 to |morph|
      invariant k == i * width
      invariant out[..] == AddScaled(start, Packed(morph[..i], width), weight)
    {
      MulStep(i, |morph|, width);
      AddMorphVertex(out, start, morph, i, k, weight, width);
      k := k + width;
    }
    assert morph[..|morph|] == morph;
  }

  /** resetSrc3 / resetSrc4: the first size vertices' floats become 0. */
  method ResetFloats(out: array<real>, size: nat, width: nat)
    requires width == 3 || width == 4
    requires size * width <= out.Length
    modifies out
    ensures forall m :: 0 <= m < out.Length ==> out[m] == (if m < size * width then 0.0 else old(out[m]))
  {
    var k := 0;
    for i := 0 to size
      invariant k == i * width
      invariant k + (size - i) * width <= out.Length
      invariant forall m :: 0 <= m < out.Length ==> out[m] == (if m < k then 0.0 else old(out[m]))
    {
      out[k] := 0.0;
      out[k + 1] := 0.0;
      out[k + 2] := 0.0;
      if width > 3 {
        out[k + 3] := 0.0;
      }
      k := k + width;
    }
  }

  // ---------------------------------------------------------------------
  // Converting targets between the GPU and CPU forms

  /** The CPU vectors of a GPU target's morph-type sources, as read back by
      `read` (the source's processVertices); empty results are dropped. */
  function CPUVecs(sources: map<Semantic, GeoSource>, read: GeoSource -> seq<Vec4>): map<Semantic, seq<Vec4>>
  {
    map t | t in sources && IsMorphType(t) && |read(sources[t])| > 0 :: read(sources[t])
  }

  function GPUSources(vecs: map<Semantic, seq<Vec4>>, elementIndex: int): map<Semantic, GeoSource>
  {
    map t | t in vecs && IsMorphType(t) && VecToSource(vecs[t], t, elementIndex).Some? ::
      VecToSource(vecs[t], t, elementIndex).value
  }

  /** convertMorphTargetToCPU as written: null for a GPU target without sources. */
  function ToCPUAsWritten(t: MorphTarget, read: GeoSource -> seq<Vec4>): (r: Option<MorphTarget>)
    ensures t.isCPU ==> r == Some(t)
    ensures r.None? <==> !t.isCPU && |t.sources| == 0
  {
    if t.isCPU then Some(t)
    else if |t.sources| == 0 then None
    else Some(Fresh().(vecs := CPUVecs(t.sources, read), isCPU := true))
  }

  /** convertMorphTargetToGPU as written: null for a CPU target without vectors. */
  function ToGPUAsWritten(t: MorphTarget, elementIndex: int): (r: Option<MorphTarget>)
    ensures !t.isCPU ==> r == Some(t)
    ensures r.None? <==> t.isCPU && |t.vecs| == 0
  {
    if !t.isCPU then Some(t)
    else if |t.vecs| == 0 then None
    else Some(Fresh().(sources := GPUSources(t.vecs, elementIndex)))
  }

  /** A morph target whose only source is not a morph type becomes a CPU
      target with no vectors, and converting that back to the GPU form gives
      null, which configureMorphTargets stores and configureShadersGPU then
      dereferences. */
  lemma NullAfterCPURoundTrip(read: GeoSource -> seq<Vec4>)
    ensures var src := GeoSource(OtherSemantic(3), 0, 1, 2, [0.0, 0.0]);
            var t := Fresh().(sources := map[OtherSemantic(3) := src], startWeight := 1.0, endWeight := 1.0);
            var c := ToCPUAsWritten(t, read);
            c.Some? && c.value.isCPU && ToGPUAsWritten(c.value, 0).None?
  {
    var src := GeoSource(OtherSemantic(3), 0, 1, 2, [0.0, 0.0]);
    var t := Fresh().(sources := map[OtherSemantic(3) := src], startWeight := 1.0, endWeight := 1.0);
    assert CPUVecs(t.sources, read) == map[];
  }

  /** Conversion to the CPU form: already-CPU targets are returned as they
      are; otherwise a fresh CPU target holds the vectors read back from the
      morph-type sources (never null). */
  function ToCPU(t: MorphTarget, read: GeoSource -> seq<Vec4>): (r: MorphTarget)
    ensures r.isCPU && r.sources == (if t.isCPU then t.sources else map[])
    ensures forall sem :: sem in r.vecs && !t.isCPU ==> IsMorphType(sem) && sem in t.sources
  {
    if t.isCPU then t else Fresh().(vecs := CPUVecs(t.sources, read), isCPU := true)
  }

  /** Conversion to the GPU form: already-GPU targets are returned as they
      are; otherwise a fresh GPU target holds one source per non-empty
      morph-type vector (never null). */
  function ToGPU(t: MorphTarget, elementIndex: int): (r: MorphTarget)
    ensures !r.isCPU && r.vecs == (if t.isCPU then map[] else t.vecs)
    ensures t.isCPU ==> forall sem :: sem in r.sources <==> sem in t.vecs && IsMorphType(sem) && |t.vecs[sem]| > 0
  {
    if !t.isCPU then t else Fresh().(sources := GPUSources(t.vecs, elementIndex))
  }

  /** The corrected conversions agree with the as-written ones wherever those
      do not return null. */
  lemma ConversionsAgree(t: MorphTarget, read: GeoSource -> seq<Vec4>, elementIndex: int)
    ensures ToCPUAsWritten(t, read).Some? ==> ToCPUAsWritten(t, read).value == ToCPU(t, read)
    ensures ToGPUAsWritten(t, elementIndex).Some? ==> ToGPUAsWritten(t, elementIndex).value == ToGPU(t, elementIndex)
  {
  }

  /** A round trip through the other form keeps exactly the morph-type data
      that is non-empty: CPU -> GPU -> CPU keeps the vectors' keys when `read`
      yields data for every non-empty source. */
  lemma {:induction false} CPURoundTripKeys(t: MorphTarget, read: GeoSource -> seq<Vec4>, elementIndex: int)
    requires t.isCPU
    requires forall s: GeoSource :: s.vertexCount > 0 ==> |read(s)| > 0
    ensures ToCPU(ToGPU(t, elementIndex), read).vecs.Keys ==
            set sem | sem in t.vecs && IsMorphType(sem) && |t.vecs[sem]| > 0
  {
    var g := ToGPU(t, elementIndex);
    forall sem | sem in g.sources
      ensures |read(g.sources[sem])| > 0
    {
      assert g.sources[sem].vertexCount == |t.vecs[sem]| > 0;
    }
  }

  function Convert(t: MorphTarget, toCPU: bool, read: GeoSource -> seq<Vec4>, elementIndex: int): MorphTarget
  {
    if toCPU then ToCPU(t, read) else ToGPU(t, elementIndex)
  }

  /** The loops of configureMorphTargets building the converted target map. */
  method ConvertAll(ts: map<string, MorphTarget>, toCPU: bool, read: GeoSource -> seq<Vec4>, elementIndex: int)
    returns (r: map<string, MorphTarget>)
    ensures r.Keys == ts.Keys
    ensures forall k :: k in r ==> r[k] == Convert(ts[k], toCPU, read, elementIndex)
    ensures forall k :: k in r ==> r[k].isCPU == toCPU
  {
    r := map[];
    var rest := ts.Keys;
    while rest != {}
      invariant rest <= ts.Keys
      invariant r.Keys == ts.Keys - rest
      invariant forall k :: k in r ==> r[k] == Convert(ts[k], toCPU, read, elementIndex)
      decreases |rest|
    {
      var k :| k in rest;
      r := r[k := Convert(ts[k], toCPU, read, elementIndex)];
      rest := rest - {k};
    }
  }

  // ---------------------------------------------------------------------
  // Morph slot index maps (getMorphSemanticAttrIndex, getMorphShaderAttrIndex)

  /** Slot i's geometry semantic; any index outside 0..6 aborts. */
  function MorphSemanticFor(i: int): (r: Option<Semantic>)
    ensures r.Some? <==> 0 <= i < MaxSupportedAttributes
    ensures r.Some? ==> r.value.Morph? && r.value.slot == i
  {
    if 0 <= i < MaxSupportedAttributes then Some(Morph(i)) else None
  }

  /** Slot i's shader mask bit (VROShaderMask::Morph_i is not part of this
      model: the bit is named by the slot); any index outside 0..6 aborts. */
  function MorphMaskFor(i: int): (r: Option<nat>)
    ensures r.Some? <==> 0 <= i < MaxSupportedAttributes
    ensures r.Some? ==> r.value == i
  {
    if 0 <= i < MaxSupportedAttributes then Some(i) else None
  }

  /** Distinct slots get distinct semantics and mask bits. */
  lemma SlotMapsInjective(i: int, j: int)
    requires MorphSemanticFor(i).Some? && MorphSemanticFor(j).Some? && i != j
    ensures MorphSemanticFor(i).value != MorphSemanticFor(j).value
    ensures MorphMaskFor(i).value != MorphMaskFor(j).value
  {
  }

  // ---------------------------------------------------------------------
  // GPU slot selection (configureShadersGPU)

  /** Morph attributes a target needs: one per source or per vector set. */
  function Attribs(t: MorphTarget): nat
  {
    if t.isCPU then |t.vecs| else |t.sources|
  }

  function Costs(ts: map<string, MorphTarget>): (c: map<string, nat>)
    ensures c.Keys == ts.Keys
    ensures forall k :: k in c ==> c[k] == Attribs(ts[k])
  {
    map k | k in ts :: Attribs(ts[k])
  }

  function Weights(ts: map<string, MorphTarget>): (w: map<string, real>)
    ensures w.Keys == ts.Keys
    ensures forall k :: k in w ==> w[k] == ts[k].startWeight
  {
    map k | k in ts :: ts[k].startWeight
  }

  predicate Distinct(s: seq<string>)
  {
    forall i, j :: 0 <= i < j < |s| ==> s[i] != s[j]
  }

  /** s lists every key exactly once. */
  ghost predicate IsEnumeration(s: seq<string>, keys: set<string>)
  {
    Distinct(s) && (forall x :: x in s <==> x in keys)
  }

  function SumCost(names: seq<string>, cost: map<string, nat>): nat
    requires forall n :: n in names ==> n in cost
  {
    if names == [] then 0 else cost[names[0]] + SumCost(names[1..], cost)
  }

  lemma {:induction false} SumCostAppend(a: seq<string>, b: seq<string>, cost: map<string, nat>)
    requires forall n :: n in a + b ==> n in cost
    ensures SumCost(a + b, cost) == SumCost(a, cost) + SumCost(b, cost)
  {
    if a != [] {
      assert (a + b)[1..] == a[1..] + b;
      SumCostAppend(a[1..], b, cost);
    } else {
      assert a + b == b;
    }
  }

  lemma {:induction false} SumCostMember(names: seq<string>, cost: map<string, nat>, n: string)
    requires forall x :: x in names ==> x in cost
    requires n in names
    ensures cost[n] <= SumCost(names, cost)
  {
    if names[0] != n {
      SumCostMember(names[1..], cost, n);
    }
  }

  /** The greedy selection loop: walk the names, take a target when its
      attributes still fit in the seven slots, stop once all are used. */
  function Select(names: seq<string>, cost: map<string, nat>, included: nat): (r: seq<string>)
    requires forall n :: n in names ==> n in cost
    ensures forall n :: n in r ==> n in names
  {
    if names == [] then []
    else
      var fits := included + cost[names[0]] <= MaxSupportedAttributes;
      var inc := if fits then included + cost[names[0]] else included;
      var taken := if fits then [names[0]] else [];
      if inc >= MaxSupportedAttributes then taken
      else taken + Select(names[1..], cost, inc)
  }

  /** The chosen targets never need more than the seven slots. */
  lemma {:induction false} SelectBudget(names: seq<string>, cost: map<string, nat>, included: nat)
    requires forall n :: n in names ==> n in cost
    requires included <= MaxSupportedAttributes
    ensures included + SumCost(Select(names, cost, included), cost) <= MaxSupportedAttributes
  {
    if names != [] {
      var fits := included + cost[names[0]] <= MaxSupportedAttributes;
      var inc := if fits then included + cost[names[0]] else included;
      var taken := if fits then [names[0]] else [];
      if inc < MaxSupportedAttributes {
        SelectBudget(names[1..], cost, inc);
        SumCostAppend(taken, Select(names[1..], cost, inc), cost);
      }
    }
  }

  /** When everything fits, every target that needs a slot is chosen. */
  lemma {:induction false} SelectTakesAllThatFit(names: seq<string>, cost: map<string, nat>, included: nat, n: string)
    requires forall x :: x in names ==> x in cost
    requires included + SumCost(names, cost) <= MaxSupportedAttributes
    requires n in names && cost[n] > 0
    ensures n in Select(names, cost, included)
  {
    var inc := included + cost[names[0]];
    if names[0] != n {
      if inc >= MaxSupportedAttributes {
        SumCostMember(names[1..], cost, n);
        assert false;
      }
      SelectTakesAllThatFit(names[1..], cost, inc, n);
    }
  }

  /** Greedy maximality: a target left out would not have fitted next to the
      chosen ones, or all seven slots are used. */
  lemma {:induction false} SelectMaximal(names: seq<string>, cost: map<string, nat>, included: nat, n: string)
    requires forall x :: x in names ==> x in cost
    requires n in names && n !in Select(names, cost, included)
    ensures var used := included + SumCost(Select(names, cost, included), cost);
            used + cost[n] > MaxSupportedAttributes || used >= MaxSupportedAttributes
  {
    var fits := included + cost[names[0]] <= MaxSupportedAttributes;
    var inc := if fits then included + cost[names[0]] else included;
    var taken := if fits then [names[0]] else [];
    var r := Select(names, cost, included);
    if inc >= MaxSupportedAttributes {
      assert r == taken;
      if fits {
        assert SumCost(taken, cost) == cost[names[0]] + SumCost([], cost);
      }
    } else {
      var rest := Select(names[1..], cost, inc);
      SumCostAppend(taken, rest, cost);
      if fits {
        assert SumCost(taken, cost) == cost[names[0]] + SumCost([], cost);
      }
      if names[0] != n {
        SelectMaximal(names[1..], cost, inc, n);
      }
    }
  }

  lemma {:induction false} SelectDistinct(names: seq<string>, cost: map<string, nat>, included: nat)
    requires forall x :: x in names ==> x in cost
    requires Distinct(names)
    ensures Distinct(Select(names, cost, included))
  {
    if names != [] {
      var fits := included + cost[names[0]] <= MaxSupportedAttributes;
      var inc := if fits then included + cost[names[0]] else included;
      if inc < MaxSupportedAttributes {
        SelectDistinct(names[1..], cost, inc);
        var rest := Select(names[1..], cost, inc);
        assert names[0] !in names[1..];
        assert names[0] !in rest;
      }
    }
  }

  // The order the greedy walk uses when more attributes than slots exist:
  // std::sort of the (name, startWeight) pairs.

  predicate Before(a: string, b: string, w: map<string, real>, descending: bool)
    requires a in w && b in w
  {
    if descending then w[a] >= w[b] else w[a] <= w[b]
  }

  predicate SortedBy(s: seq<string>, w: map<string, real>, descending: bool)
    requires forall x :: x in s ==> x in w
  {
    forall i, j :: 0 <= i < j < |s| ==> Before(s[i], s[j], w, descending)
  }

  function Insert(x: string, s: seq<string>, w: map<string, real>, descending: bool): (r: seq<string>)
    requires x in w && forall y :: y in s ==> y in w
    ensures multiset(r) == multiset(s) + multiset{x}
    ensures forall y :: y in r <==> y == x || y in s
  {
    if s == [] || Before(x, s[0], w, descending) then [x] + s
    else
      assert s == [s[0]] + s[1..];
      [s[0]] + Insert(x, s[1..], w, descending)
  }

  function SortByWeight(s: seq<string>, w: map<string, real>, descending: bool): (r: seq<string>)
    requires forall y :: y in s ==> y in w
    ensures multiset(r) == multiset(s)
    ensures forall y :: y in r <==> y in s
  {
    if s == [] then []
    else
      assert s == [s[0]] + s[1..];
      Insert(s[0], SortByWeight(s[1..], w, descending), w, descending)
  }

  lemma {:induction false} InsertSorted(x: string, s: seq<string>, w: map<string, real>, descending: bool)
    requires x in w && forall y :: y in s ==> y in w
    requires SortedBy(s, w, descending)
    ensures SortedBy(Insert(x, s, w, descending), w, descending)
  {
    if s != [] && !Before(x, s[0], w, descending) {
      InsertSorted(x, s[1..], w, descending);
      var r := Insert(x, s, w, descending);
      forall j | 0 < j < |r|
        ensures Before(s[0], r[j], w, descending)
      {
        assert r[j] in multiset(Insert(x, s[1..], w, descending));
        assert r[j] == x || r[j] in s[1..];
      }
    }
  }

  /** The sort is a permutation ordered by weight. */
  lemma {:induction false} SortByWeightSorted(s: seq<string>, w: map<string, real>, descending: bool)
    requires forall y :: y in s ==> y in w
    ensures SortedBy(SortByWeight(s, w, descending), w, descending)
    ensures multiset(SortByWeight(s, w, descending)) == multiset(s)
  {
    if s != [] {
      SortByWeightSorted(s[1..], w, descending);
      InsertSorted(s[0], SortByWeight(s[1..], w, descending), w, descending);
    }
  }

  lemma PermutationKeepsEnumeration(a: seq<string>, b: seq<string>, keys: set<string>)
    requires multiset(a) == multiset(b)
    requires IsEnumeration(a, keys)
    ensures IsEnumeration(b, keys)
  {
    forall x | x in b ensures x in keys {
      assert x in multiset(b);
    }
    forall x | x in keys ensures x in b {
      assert x in multiset(a);
    }
    forall i, j | 0 <= i < j < |b| ensures b[i] != b[j] {
      if b[i] == b[j] {
        var x := b[i];
        assert multiset(b)[x] >= 2 by {
          var b1 := b[..i] + b[i + 1..];
          assert b == b[..i] + [x] + b[i + 1..];
          assert b1[j - 1] == x;
          assert multiset(b) == multiset(b1) + multiset{x};
          assert x in multiset(b1);
        }
        EnumerationCountsOnce(a, x);
      }
    }
  }

  lemma {:induction false} EnumerationCountsOnce(a: seq<string>, x: string)
    requires Distinct(a)
    ensures multiset(a)[x] <= 1
  {
    if a != [] {
      assert a == [a[0]] + a[1..];
      EnumerationCountsOnce(a[1..], x);
      if a[0] == x {
        assert x !in a[1..];
      }
    }
  }

  /** With the corrected (descending) order, the heaviest target comes first
      and is chosen whenever it fits in the slots at all. */
  lemma HeaviestChosen(names: seq<string>, w: map<string, real>, cost: map<string, nat>)
    requires names != []
    requires forall x :: x in names ==> x in w && x in cost
    ensures var s := SortByWeight(names, w, true);
            s != [] && s[0] in names && (forall x :: x in names ==> w[x] <= w[s[0]]) &&
            (cost[s[0]] <= MaxSupportedAttributes ==> s[0] in Select(s, cost, 0))
  {
    var s := SortByWeight(names, w, true);
    SortByWeightSorted(names, w, true);
    assert |s| == |multiset(s)| == |multiset(names)| > 0;
    assert s[0] in multiset(names);
    forall x | x in names ensures w[x] <= w[s[0]] {
      assert x in multiset(s);
      var i :| 0 <= i < |s| && s[i] == x;
      if i > 0 {
        assert Before(s[0], s[i], w, true);
      }
    }
  }

  /** The ascending sort as written: two targets of 4 attributes each,
      weights 0 and 1; the greedy walk takes the lighter one and leaves out
      the target of weight 1. */
  lemma AscendingSortSkipsHeaviest()
    ensures var w := map["a" := 0.0, "b" := 1.0];
            var cost := map["a" := 4, "b" := 4];
            var s := SortByWeight(["b", "a"], w, false);
            s == ["a", "b"] && Select(s, cost, 0) == ["a"] && "b" !in Select(s, cost, 0)
  {
    var w := map["a" := 0.0, "b" := 1.0];
    assert Insert("a", ["b"], w, false) == ["a", "b"];
    assert SortByWeight(["a"], w, false) == ["a"];
    assert SortByWeight(["b", "a"], w, false) == Insert("b", ["a"], w, false);
    assert Insert("b", ["a"], w, false) == ["a"] + Insert("b", [], w, false);
  }

  // ---------------------------------------------------------------------
  // Shader modifiers and slot assignment

  /** The weight uniform of a slot reads the start weight of the named target. */
  datatype WeightUniform = WeightUniform(slot: nat, target: string)

  /** A geometry shader modifier: GPU morphs add each slot's weighted morph
      attribute to position, normal or tangent; hybrid morphs mix towards
      morph attributes 0, 1 and 2. `attributes` holds the morph mask bits. */
  datatype ShaderModifier =
    | GPUModifier(id: nat, vertexSlots: seq<nat>, normalSlots: seq<nat>, tangentSlots: seq<nat>,
                  uniforms: seq<WeightUniform>, attributes: set<nat>)
    | HybridModifier(id: nat, attributes: set<nat>)

  /** Slots 0 .. n-1. */
  ghost function SlotSet(n: nat): (r: set<nat>)
    ensures forall b: nat :: b in r <==> b < n
  {
    if n == 0 then {} else SlotSet(n - 1) + {n - 1}
  }

  predicate Below(s: seq<nat>, n: nat)
  {
    forall i :: 0 <= i < |s| ==> s[i] < n
  }

  /** A GPU modifier whose slots 0 .. n-1 are all in use, in order. */
  ghost predicate SlotsUpTo(m: ShaderModifier, n: nat)
  {
    m.GPUModifier? &&
    |m.uniforms| == n && (forall i :: 0 <= i < n ==> m.uniforms[i].slot == i) &&
    m.attributes == SlotSet(n) &&
    Below(m.vertexSlots, n) && Below(m.normalSlots, n) && Below(m.tangentSlots, n)
  }

  /** b is a with only its sources' semantics (and its activity) changed. */
  ghost predicate SameUpToSlots(a: MorphTarget, b: MorphTarget)
  {
    b.vecs == a.vecs && b.startWeight == a.startWeight && b.endWeight == a.endWeight &&
    b.isCPU == a.isCPU && b.sources.Keys == a.sources.Keys &&
    forall sem :: sem in b.sources ==> b.sources[sem] == a.sources[sem].(semantic := b.sources[sem].semantic)
  }

  /** Every source of b carries a morph slot below n. */
  ghost predicate Relabelled(a: MorphTarget, b: MorphTarget, n: nat)
  {
    SameUpToSlots(a, b) && b.isActive == a.isActive &&
    forall sem :: sem in b.sources ==> b.sources[sem].semantic.Morph? && b.sources[sem].semantic.slot < n
  }

  /** No two sources of t carry the same semantic. */
  ghost predicate SourcesDistinct(t: MorphTarget)
  {
    forall a, b :: a in t.sources && b in t.sources && a != b ==> t.sources[a].semantic != t.sources[b].semantic
  }

  /** Some source of t carries morph slot i. */
  ghost predicate HoldsSlot(t: MorphTarget, i: nat)
  {
    exists sem :: sem in t.sources && t.sources[sem].semantic == Morph(i)
  }

  /** s is a morph slot of m whose weight uniform reads target k. */
  ghost predicate SlotOwner(m: ShaderModifier, s: Semantic, k: string)
  {
    m.GPUModifier? && s.Morph? && s.slot < |m.uniforms| && m.uniforms[s.slot].target == k
  }

  lemma SameUpToSlotsCost(a: MorphTarget, b: MorphTarget)
    requires SameUpToSlots(a, b)
    ensures Attribs(a) == Attribs(b)
  {
    assert |b.sources| == |b.sources.Keys| == |a.sources.Keys| == |a.sources|;
  }

  /** One source's slot in the modifier: its modifier line (position,
      normal or tangent), its mask bit and its weight uniform. */
  function AddSlot(m: ShaderModifier, sem: Semantic, slot: nat, name: string): ShaderModifier
    requires m.GPUModifier?
  {
    var m1 :=
      if sem == Vertex then m.(vertexSlots := m.vertexSlots + [slot])
      else if sem == Normal then m.(normalSlots := m.normalSlots + [slot])
      else if sem == Tangent then m.(tangentSlots := m.tangentSlots + [slot])
      else m;
    m1.(attributes := m1.attributes + {slot}, uniforms := m1.uniforms + [WeightUniform(slot, name)])
  }

  lemma AddSlotKeeps(m: ShaderModifier, n: nat, sem: Semantic, name: string, first: nat)
    requires SlotsUpTo(m, n) && first <= n
    ensures SlotsUpTo(AddSlot(m, sem, n, name), n + 1)
    ensures AddSlot(m, sem, n, name).uniforms == m.uniforms + [WeightUniform(n, name)]
  {
    assert SlotSet(n + 1) == SlotSet(n) + {n};
  }

  /** The inner loop of configureShadersGPU over one chosen target's
      sources: each source takes the next slot, its semantic becomes that
      slot's morph semantic, and the slot's mask bit and weight uniform are
      added. */
  method RelabelTarget(name: string, t: MorphTarget, first: nat, m: ShaderModifier)
    returns (r: MorphTarget, next: nat, m': ShaderModifier)
    requires !t.isCPU
    requires first + |t.sources| <= MaxSupportedAttributes
    requires SlotsUpTo(m, first)
    ensures next == first + |t.sources|
    ensures SlotsUpTo(m', next) && m'.uniforms[..first] == m.uniforms
    ensures forall i :: first <= i < next ==> m'.uniforms[i].target == name
    ensures Relabelled(t, r, next)
    ensures forall sem :: sem in r.sources ==> r.sources[sem].semantic.Morph? && first <= r.sources[sem].semantic.slot
    ensures SourcesDistinct(r) && forall i :: first <= i < next ==> HoldsSlot(r, i)
  {
    var srcs := t.sources;
    var rest := t.sources.Keys;
    next := first;
    m' := m;
    while rest != {}
      invariant rest <= t.sources.Keys
      invariant next == first + (|t.sources.Keys| - |rest|)
      invariant ModifierSoFar(m, m', first, next, name)
      invariant RelabelledSoFar(t, srcs, rest, first, next)
      decreases |rest|
    {
      var sem :| sem in rest;
      assert |rest - {sem}| == |rest| - 1;
      assert |t.sources.Keys| == |t.sources|;
      var semantic := MorphSemanticFor(next);
      var mask := MorphMaskFor(next);
      ModifierStep(m, m', first, next, sem, name);
      m' := AddSlot(m', sem, mask.value, name);
      RelabelStep(t, srcs, rest, sem, first, next);
      srcs := srcs[sem := srcs[sem].(semantic := semantic.value)];
      next := next + 1;
      rest := rest - {sem};
    }
    assert |t.sources.Keys| == |t.sources|;
    r := t.(sources := srcs);
    RelabelEnd(t, r, first, next);
  }

  /** The modifier holds m's slots followed by slots first..n - 1, all for
      the named target. */
  ghost predicate ModifierSoFar(m: ShaderModifier, m': ShaderModifier, first: nat, n: nat, name: string)
  {
    first <= n && m.GPUModifier? && SlotsUpTo(m', n) && m'.uniforms[..first] == m.uniforms &&
    forall i :: first <= i < n ==> m'.uniforms[i].target == name
  }

  lemma ModifierStep(m: ShaderModifier, m': ShaderModifier, first: nat, n: nat, sem: Semantic, name: string)
    requires ModifierSoFar(m, m', first, n, name)
    ensures m'.GPUModifier? && ModifierSoFar(m, AddSlot(m', sem, n, name), first, n + 1, name)
  {
    AddSlotKeeps(m', n, sem, name, first);
    assert (m'.uniforms + [WeightUniform(n, name)])[..first] == m'.uniforms[..first];
  }

  /** Some source outside rest carries morph slot i. */
  ghost predicate SlotTaken(srcs: map<Semantic, GeoSource>, rest: set<Semantic>, i: nat)
  {
    exists sem :: sem in srcs && sem !in rest && srcs[sem].semantic == Morph(i)
  }

  /** The sources outside rest hold slots first .. n-1, one each; the
      sources differ from t's in their semantics only. */
  ghost predicate RelabelledSoFar(t: MorphTarget, srcs: map<Semantic, GeoSource>, rest: set<Semantic>, first: nat, n: nat)
  {
    srcs.Keys == t.sources.Keys &&
    (forall sem :: sem in srcs ==> srcs[sem] == t.sources[sem].(semantic := srcs[sem].semantic)) &&
    (forall sem :: sem in srcs && sem !in rest ==>
       srcs[sem].semantic.Morph? && first <= srcs[sem].semantic.slot < n) &&
    (forall a, b :: a in srcs && b in srcs && a !in rest && b !in rest && a != b ==>
       srcs[a].semantic != srcs[b].semantic) &&
    forall i :: first <= i < n ==> SlotTaken(srcs, rest, i)
  }

  lemma RelabelStep(t: MorphTarget, srcs: map<Semantic, GeoSource>, rest: set<Semantic>, sem: Semantic, first: nat, n: nat)
    requires sem in rest && rest <= t.sources.Keys && first <= n < MaxSupportedAttributes
    requires RelabelledSoFar(t, srcs, rest, first, n)
    ensures sem in srcs && RelabelledSoFar(t, srcs[sem := srcs[sem].(semantic := Morph(n))], rest - {sem}, first, n + 1)
  {
    var srcs' := srcs[sem := srcs[sem].(semantic := Morph(n))];
    forall i | first <= i < n + 1
      ensures SlotTaken(srcs', rest - {sem}, i)
    {
      if i == n {
        assert srcs'[sem].semantic == Morph(i);
      } else {
        assert SlotTaken(srcs, rest, i);
        var w :| w in srcs && w !in rest && srcs[w].semantic == Morph(i);
        assert srcs'[w] == srcs[w];
      }
    }
  }

  lemma RelabelEnd(t: MorphTarget, r: MorphTarget, first: nat, next: nat)
    requires RelabelledSoFar(t, r.sources, {}, first, next) && r == t.(sources := r.sources)
    ensures Relabelled(t, r, next)
    ensures forall sem :: sem in r.sources ==> r.sources[sem].semantic.Morph? && first <= r.sources[sem].semantic.slot
    ensures SourcesDistinct(r) && forall i :: first <= i < next ==> HoldsSlot(r, i)
  {
    forall i | first <= i < next
      ensures HoldsSlot(r, i)
    {
      assert SlotTaken(r.sources, {}, i);
    }
  }

  /** What AssignSlots keeps while it walks the chosen names: the
      visited ones are relabelled into the modifier's first n slots. */
  ghost predicate AssignInv(ts: map<string, MorphTarget>, chosen: seq<string>, cost: map<string, nat>,
                            visited: seq<string>, rest: seq<string>, done: map<string, MorphTarget>,
                            m: ShaderModifier, n: nat)
  {
    chosen == visited + rest && Distinct(chosen) &&
    (forall c :: c in chosen ==> c in ts && !ts[c].isCPU && c in cost && cost[c] == |ts[c].sources|) &&
    n == SumCost(visited, cost) && n + SumCost(rest, cost) <= MaxSupportedAttributes &&
    done.Keys == (set k | k in visited) &&
    SlotsUpTo(m, n) &&
    (forall j :: 0 <= j < n ==> m.uniforms[j].target in visited) &&
    (forall k :: k in done ==> Relabelled(ts[k], done[k], MaxSupportedAttributes))
  }

  /** The targets of done hold the slots of m below n one to one, and slot
      j's weight uniform reads the target holding it. */
  ghost predicate SlotsHeldBy(done: map<string, MorphTarget>, m: ShaderModifier, n: nat)
  {
    m.GPUModifier? && |m.uniforms| == n &&
    (forall k :: k in done ==> SourcesDistinct(done[k])) &&
    (forall k, sem :: k in done && sem in done[k].sources ==> SlotOwner(m, done[k].sources[sem].semantic, k)) &&
    (forall j :: 0 <= j < n ==> m.uniforms[j].target in done && HoldsSlot(done[m.uniforms[j].target], j))
  }

  lemma NotYetVisited(chosen: seq<string>, visited: seq<string>, rest: seq<string>)
    requires chosen == visited + rest && Distinct(chosen) && rest != []
    ensures rest[0] !in visited
  {
    assert rest[0] == chosen[|visited|];
    forall i | 0 <= i < |visited| ensures visited[i] != rest[0] {
      assert visited[i] == chosen[i];
    }
  }

  lemma AssignStepHeld(done: map<string, MorphTarget>, name: string, m: ShaderModifier, n: nat,
                       t: MorphTarget, next: nat, m': ShaderModifier)
    requires name !in done && SlotsHeldBy(done, m, n)
    requires SlotsUpTo(m', next) && n <= next && m'.uniforms[..n] == m.uniforms
    requires forall i :: n <= i < next ==> m'.uniforms[i].target == name
    requires forall sem :: sem in t.sources ==>
      t.sources[sem].semantic.Morph? && n <= t.sources[sem].semantic.slot < next
    requires SourcesDistinct(t) && forall i :: n <= i < next ==> HoldsSlot(t, i)
    ensures SlotsHeldBy(done[name := t], m', next)
  {
    var done' := done[name := t];
    forall j | 0 <= j < n ensures m'.uniforms[j] == m.uniforms[j] {
      assert m'.uniforms[j] == m'.uniforms[..n][j];
    }
    forall k, sem | k in done' && sem in done'[k].sources
      ensures SlotOwner(m', done'[k].sources[sem].semantic, k)
    {
      if k != name {
        assert SlotOwner(m, done[k].sources[sem].semantic, k);
      }
    }
    forall j | 0 <= j < next
      ensures m'.uniforms[j].target in done' && HoldsSlot(done'[m'.uniforms[j].target], j)
    {
      if j < n {
        assert m.uniforms[j].target in done && HoldsSlot(done[m.uniforms[j].target], j);
      }
    }
  }

  lemma AssignStart(ts: map<string, MorphTarget>, chosen: seq<string>, cost: map<string, nat>)
    requires Distinct(chosen)
    requires forall c :: c in chosen ==> c in ts && !ts[c].isCPU && c in cost && cost[c] == |ts[c].sources|
    requires SumCost(chosen, cost) <= MaxSupportedAttributes
    ensures AssignInv(ts, chosen, cost, [], chosen, map[], GPUModifier(0, [], [], [], [], {}), 0)
  {
    assert [] + chosen == chosen;
    assert SlotSet(0) == {};
  }

  lemma AssignNext(ts: map<string, MorphTarget>, chosen: seq<string>, cost: map<string, nat>,
                   visited: seq<string>, rest: seq<string>, done: map<string, MorphTarget>,
                   m: ShaderModifier, n: nat)
    requires AssignInv(ts, chosen, cost, visited, rest, done, m, n) && rest != []
    ensures rest[0] in ts && !ts[rest[0]].isCPU && SlotsUpTo(m, n)
    ensures n + |ts[rest[0]].sources| <= MaxSupportedAttributes
  {
    assert rest[0] in chosen;
    assert rest == [rest[0]] + rest[1..];
    SumCostAppend([rest[0]], rest[1..], cost);
    assert SumCost([rest[0]], cost) == cost[rest[0]] + SumCost([], cost);
  }

  lemma AssignStepCost(chosen: seq<string>, cost: map<string, nat>, visited: seq<string>, rest: seq<string>, n: nat)
    requires chosen == visited + rest && rest != [] && forall c :: c in chosen ==> c in cost
    requires n == SumCost(visited, cost) && n + SumCost(rest, cost) <= MaxSupportedAttributes
    ensures visited + [rest[0]] + rest[1..] == chosen
    ensures SumCost(visited + [rest[0]], cost) == n + cost[rest[0]]
    ensures n + cost[rest[0]] + SumCost(rest[1..], cost) <= MaxSupportedAttributes
  {
    var name := rest[0];
    assert name in chosen;
    assert visited + [name] + rest[1..] == chosen;
    assert rest == [name] + rest[1..];
    SumCostAppend([name], rest[1..], cost);
    SumCostAppend(visited, [name], cost);
    assert SumCost([name], cost) == cost[name] + SumCost([], cost);
  }

  lemma AssignStepUniforms(visited: seq<string>, name: string, u: seq<WeightUniform>, u': seq<WeightUniform>, next: nat)
    requires |u| <= next == |u'| && u'[..|u|] == u
    requires forall j :: 0 <= j < |u| ==> u[j].target in visited
    requires forall i :: |u| <= i < next ==> u'[i].target == name
    ensures forall j :: 0 <= j < next ==> u'[j].target in visited + [name]
  {
    forall j | 0 <= j < next
      ensures u'[j].target in visited + [name]
    {
      if j < |u| {
        assert u'[j] == u[j];
      }
    }
  }

  lemma AssignStepDone(ts: map<string, MorphTarget>, visited: seq<string>, done: map<string, MorphTarget>,
                       name: string, t: MorphTarget, next: nat)
    requires done.Keys == (set k | k in visited) && name in ts
    requires forall k :: k in done ==> k in ts && Relabelled(ts[k], done[k], MaxSupportedAttributes)
    requires Relabelled(ts[name], t, next) && next <= MaxSupportedAttributes
    ensures done[name := t].Keys == (set k | k in visited + [name])
    ensures forall k :: k in done[name := t] ==> Relabelled(ts[k], done[name := t][k], MaxSupportedAttributes)
  {
    RelabelledMono(ts[name], t, next, MaxSupportedAttributes);
  }

  lemma AssignStep(ts: map<string, MorphTarget>, chosen: seq<string>, cost: map<string, nat>,
                   visited: seq<string>, rest: seq<string>, done: map<string, MorphTarget>,
                   m: ShaderModifier, n: nat, t: MorphTarget, next: nat, m': ShaderModifier)
    requires AssignInv(ts, chosen, cost, visited, rest, done, m, n) && rest != []
    requires rest[0] in ts && next == n + |ts[rest[0]].sources|
    requires SlotsUpTo(m', next) && m'.uniforms[..n] == m.uniforms
    requires forall i :: n <= i < next ==> m'.uniforms[i].target == rest[0]
    requires Relabelled(ts[rest[0]], t, next) && next <= MaxSupportedAttributes
    ensures AssignInv(ts, chosen, cost, visited + [rest[0]], rest[1..], done[rest[0] := t], m', next)
  {
    var name := rest[0];
    assert name in chosen;
    AssignStepCost(chosen, cost, visited, rest, n);
    AssignStepUniforms(visited, name, m.uniforms, m'.uniforms, next);
    AssignStepDone(ts, visited, done, name, t, next);
  }

  lemma AssignEnd(ts: map<string, MorphTarget>, chosen: seq<string>, cost: map<string, nat>,
                  visited: seq<string>, rest: seq<string>, done: map<string, MorphTarget>,
                  m: ShaderModifier, n: nat)
    requires AssignInv(ts, chosen, cost, visited, rest, done, m, n) && rest == []
    ensures AssignInv(ts, chosen, cost, chosen, [], done, m, n)
  {
    assert visited == chosen;
  }

  /** The second loop of configureShadersGPU: each chosen target's
      sources are relabelled into consecutive morph slots, one source per
      slot, and slot j's weight uniform reads the target holding slot j. */
  method AssignSlots(ts: map<string, MorphTarget>, chosen: seq<string>, ghost cost: map<string, nat>)
    returns (done: map<string, MorphTarget>, m: ShaderModifier, n: nat)
    requires Distinct(chosen)
    requires forall c :: c in chosen ==> c in ts && !ts[c].isCPU && c in cost && cost[c] == |ts[c].sources|
    requires SumCost(chosen, cost) <= MaxSupportedAttributes
    ensures AssignInv(ts, chosen, cost, chosen, [], done, m, n)
    ensures SlotsHeldBy(done, m, n)
  {
    done := map[];
    m := GPUModifier(0, [], [], [], [], {});
    n := 0;
    var rest := chosen;
    ghost var visited: seq<string> := [];
    AssignStart(ts, chosen, cost);
    while rest != []
      invariant AssignInv(ts, chosen, cost, visited, rest, done, m, n)
      invariant SlotsHeldBy(done, m, n)
    {
      AssignNext(ts, chosen, cost, visited, rest, done, m, n);
      var name := rest[0];
      var t, next, m' := RelabelTarget(name, ts[name], n, m);
      AssignStep(ts, chosen, cost, visited, rest, done, m, n, t, next, m');
      NotYetVisited(chosen, visited, rest);
      AssignStepHeld(done, name, m, n, t, next, m');
      done := done[name := t];
      m := m';
      n := next;
      visited := visited + [name];
      rest := rest[1..];
    }
    AssignEnd(ts, chosen, cost, visited, rest, done, m, n);
  }

  lemma RelabelledMono(a: MorphTarget, b: MorphTarget, n: nat, n': nat)
    requires Relabelled(a, b, n) && n <= n'
    ensures Relabelled(a, b, n')
  {
  }

  function Deactivated(ts: map<string, MorphTarget>): map<string, MorphTarget>
  {
    map k | k in ts :: ts[k].(isActive := false)
  }

  lemma EnumerationExtend(s: seq<string>, keys: set<string>, k: string)
    requires IsEnumeration(s, keys) && k !in keys
    ensures IsEnumeration(s + [k], keys + {k})
  {
  }

  lemma EnumerationDone(s: seq<string>, keys: set<string>)
    requires IsEnumeration(s, keys - {})
    ensures IsEnumeration(s, keys) && forall k :: k in s ==> k in keys
  {
    assert keys - {} == keys;
  }

  lemma EnumerationNext(s: seq<string>, keys: set<string>, rest: set<string>, k: string)
    requires rest <= keys && k in rest
    requires IsEnumeration(s, keys - rest)
    ensures IsEnumeration(s + [k], keys - (rest - {k})) && |rest - {k}| < |rest|
  {
    EnumerationExtend(s, keys - rest, k);
    assert keys - (rest - {k}) == (keys - rest) + {k};
  }

  /** The first loop of configureShadersGPU: every target is marked
      inactive, its (name, weight) pair collected and its attributes
      counted. */
  method Deactivate(ts: map<string, MorphTarget>) returns (r: map<string, MorphTarget>, names: seq<string>, total: nat)
    ensures r == Deactivated(ts)
    ensures IsEnumeration(names, ts.Keys)
    ensures total == SumCost(names, Costs(ts))
  {
    ghost var cost := Costs(ts);
    r := ts;
    names := [];
    total := 0;
    var rest := ts.Keys;
    while rest != {}
      invariant rest <= ts.Keys && DeactivatedExcept(ts, r, rest)
      invariant IsEnumeration(names, ts.Keys - rest)
      invariant total == SumCost(names, cost)
      decreases |rest|
    {
      var k :| k in rest;
      DeactivateOne(ts, r, rest, k);
      r := r[k := r[k].(isActive := false)];
      DeactivateStep(names, ts.Keys, rest, k, cost);
      names := names + [k];
      total := total + Attribs(ts[k]);
      rest := rest - {k};
    }
    DeactivateDone(ts, r, names);
  }

  /** The targets outside rest are marked inactive, the others untouched. */
  ghost predicate DeactivatedExcept(ts: map<string, MorphTarget>, r: map<string, MorphTarget>, rest: set<string>)
  {
    r.Keys == ts.Keys &&
    forall k :: k in r ==> r[k] == if k in rest then ts[k] else ts[k].(isActive := false)
  }

  lemma DeactivateOne(ts: map<string, MorphTarget>, r: map<string, MorphTarget>, rest: set<string>, k: string)
    requires k in rest && rest <= ts.Keys && DeactivatedExcept(ts, r, rest)
    ensures k in r && DeactivatedExcept(ts, r[k := r[k].(isActive := false)], rest - {k})
  {
  }

  lemma DeactivateDone(ts: map<string, MorphTarget>, r: map<string, MorphTarget>, names: seq<string>)
    requires DeactivatedExcept(ts, r, {}) && IsEnumeration(names, ts.Keys - {})
    ensures r == Deactivated(ts) && IsEnumeration(names, ts.Keys)
  {
    assert ts.Keys - {} == ts.Keys;
  }

  lemma DeactivateStep(names: seq<string>, keys: set<string>, rest: set<string>, k: string, cost: map<string, nat>)
    requires rest <= keys && k in rest && keys == cost.Keys
    requires IsEnumeration(names, keys - rest)
    ensures IsEnumeration(names + [k], keys - (rest - {k}))
    ensures SumCost(names + [k], cost) == SumCost(names, cost) + cost[k]
  {
    EnumerationExtend(names, keys - rest, k);
    assert keys - (rest - {k}) == (keys - rest) + {k};
    SumCostAppend(names, [k], cost);
    assert SumCost([k], cost) == cost[k] + SumCost([], cost);
  }

  lemma SelectUnfold(names: seq<string>, i: nat, cost: map<string, nat>, included: nat)
    requires i < |names| && forall n :: n in names ==> n in cost
    ensures var fits := included + cost[names[i]] <= MaxSupportedAttributes;
            var inc := if fits then included + cost[names[i]] else included;
            var taken := if fits then [names[i]] else [];
            Select(names[i..], cost, included) ==
              if inc >= MaxSupportedAttributes then taken else taken + Select(names[i + 1..], cost, inc)
  {
    assert names[i..][0] == names[i] && names[i..][1..] == names[i + 1..];
  }

  function MarkActive(ts: map<string, MorphTarget>, chosen: seq<string>): map<string, MorphTarget>
  {
    map k | k in ts :: ts[k].(isActive := ts[k].isActive || k in chosen)
  }

  lemma MarkActiveStep(ts: map<string, MorphTarget>, chosen: seq<string>, name: string)
    requires name in ts
    ensures MarkActive(ts, chosen + [name]) == MarkActive(ts, chosen)[name := MarkActive(ts, chosen)[name].(isActive := true)]
  {
  }

  /** The selection loop of configureShadersGPU: walks the ordered names,
      taking each target whose attributes still fit (the source marks it
      active as it goes; see MarkActive). */
  method SelectTargets(names: seq<string>, cost: map<string, nat>) returns (chosen: seq<string>)
    requires forall n :: n in names ==> n in cost
    ensures chosen == Select(names, cost, 0)
  {
    chosen := [];
    var included: nat := 0;
    var rest := names;
    while rest != []
      invariant forall n :: n in rest ==> n in cost
      invariant included <= MaxSupportedAttributes
      invariant chosen + Select(rest, cost, included) == Select(names, cost, 0)
    {
      var name := rest[0];
      var attribs := cost[name];
      SelectHead(rest, cost, included);
      if included + attribs <= MaxSupportedAttributes {
        included := included + attribs;
        chosen := chosen + [name];
      }
      if included >= MaxSupportedAttributes {
        return;
      }
      rest := rest[1..];
    }
  }

  lemma SelectHead(rest: seq<string>, cost: map<string, nat>, included: nat)
    requires rest != [] && forall n :: n in rest ==> n in cost
    ensures var c := cost[rest[0]];
            if included + c <= MaxSupportedAttributes then
              if included + c >= MaxSupportedAttributes then Select(rest, cost, included) == [rest[0]]
              else Select(rest, cost, included) == [rest[0]] + Select(rest[1..], cost, included + c)
            else
              if included >= MaxSupportedAttributes then Select(rest, cost, included) == []
              else Select(rest, cost, included) == Select(rest[1..], cost, included)
  {
  }

  /** removeShaderModifier: every occurrence of m leaves the list. */
  function Remove(mods: seq<ShaderModifier>, m: ShaderModifier): (r: seq<ShaderModifier>)
    ensures forall x :: x in r <==> x in mods && x != m
  {
    if mods == [] then []
    else if mods[0] == m then Remove(mods[1..], m)
    else [mods[0]] + Remove(mods[1..], m)
  }

  /** s lists each active target once. */
  ghost predicate ListsActive(s: seq<string>, ts: map<string, MorphTarget>)
  {
    Distinct(s) && forall k :: k in s <==> k in ts && ts[k].isActive
  }

  /** The active targets' attributes fit the slots. */
  ghost predicate ActiveFit(ts: map<string, MorphTarget>)
  {
    exists s :: ListsActive(s, ts) && SumCost(s, Costs(ts)) <= MaxSupportedAttributes
  }

  // ---------------------------------------------------------------------
  // Hybrid modifier (configureShadersHybrid)

  /** The mix attributes as written: an else-if chain, so only the first of
      position, normal and tangent that some target morphs is mixed. */
  function HybridSlotsAsWritten(hasVertex: bool, hasNormal: bool, hasTangent: bool): (r: set<nat>)
    ensures r <= HybridSlots(hasVertex, hasNormal, hasTangent)
    ensures |r| == if hasVertex || hasNormal || hasTangent then 1 else 0
  {
    if hasVertex then {0} else if hasNormal then {1} else if hasTangent then {2} else {}
  }

  /** Corrected: each morphed property gets its own mix (slot 0 position,
      1 normal, 2 tangent). */
  function HybridSlots(hasVertex: bool, hasNormal: bool, hasTangent: bool): (r: set<nat>)
    ensures 0 in r <==> hasVertex
    ensures 1 in r <==> hasNormal
    ensures 2 in r <==> hasTangent
    ensures forall b :: b in r ==> b < 3
  {
    (if hasVertex then {0} else {}) + (if hasNormal then {1} else {}) + (if hasTangent then {2} else {})
  }

  /** Targets morphing both positions and normals: as written the normal
      mix (morph attribute 1) is never added to the shader. */
  lemma HybridNormalsDropped()
    ensures 1 !in HybridSlotsAsWritten(true, true, false)
    ensures 1 in HybridSlots(true, true, false)
  {
  }

  ghost predicate HasVecs(ts: map<string, MorphTarget>, sem: Semantic)
  {
    exists k :: k in ts && sem in ts[k].vecs
  }

  // ---------------------------------------------------------------------
  // Geometry sources the update replaces

  /** The sources update removes from the geometry's list before adding its
      own: morph slots 0..6 in the GPU case; position, tangent, normal and
      morph slots 0..2 otherwise. */
  predicate Replaced(s: GeoSource, elementIndex: int, gpu: bool)
  {
    s.elementIndex == elementIndex &&
    if gpu then s.semantic.Morph? && s.semantic.slot < MaxSupportedAttributes
    else IsMorphType(s.semantic) || (s.semantic.Morph? && s.semantic.slot < 3)
  }

  /** std::remove_if followed by erase: the kept sources in their order. */
  function Kept(s: seq<GeoSource>, elementIndex: int, gpu: bool): (r: seq<GeoSource>)
    ensures |r| <= |s|
    ensures forall x :: x in r <==> x in s && !Replaced(x, elementIndex, gpu)
  {
    if s == [] then []
    else if Replaced(s[0], elementIndex, gpu) then Kept(s[1..], elementIndex, gpu)
    else [s[0]] + Kept(s[1..], elementIndex, gpu)
  }

  /** A source of an active GPU target, the ones the GPU update adds. */
  ghost predicate ActiveSource(ts: map<string, MorphTarget>, x: GeoSource)
  {
    exists k, sem :: k in ts && !ts[k].isCPU && ts[k].isActive && sem in ts[k].sources && ts[k].sources[sem] == x
  }

  /** The GPU update's loop pushing every source of every active GPU target. */
  method AppendActiveSources(ts: map<string, MorphTarget>, base: seq<GeoSource>) returns (out: seq<GeoSource>)
    ensures |out| >= |base| && out[..|base|] == base
    ensures forall x :: x in out[|base|..] <==> ActiveSource(ts, x)
  {
    out := base;
    var rest := ts.Keys;
    while rest != {}
      invariant rest <= ts.Keys
      invariant |out| >= |base| && out[..|base|] == base
      invariant forall x :: x in out[|base|..] <==>
        exists k, sem :: k in ts && k !in rest && !ts[k].isCPU && ts[k].isActive && sem in ts[k].sources && ts[k].sources[sem] == x
      decreases |rest|
    {
      var k :| k in rest;
      var t := ts[k];
      if !t.isCPU && t.isActive {
        var added := AppendSources(t.sources, out);
        assert added[..|base|] == out[..|base|];
        assert added[|base|..] == out[|base|..] + added[|out|..];
        out := added;
      }
      rest := rest - {k};
    }
  }

  method AppendSources(sources: map<Semantic, GeoSource>, base: seq<GeoSource>) returns (out: seq<GeoSource>)
    ensures |out| >= |base| && out[..|base|] == base
    ensures forall x :: x in out[|base|..] <==> exists sem :: sem in sources && sources[sem] == x
  {
    out := base;
    var rest := sources.Keys;
    while rest != {}
      invariant rest <= sources.Keys
      invariant |out| >= |base| && out[..|base|] == base
      invariant forall x :: x in out[|base|..] <==> exists sem :: sem in sources && sem !in rest && sources[sem] == x
      decreases |rest|
    {
      var sem :| sem in rest;
      assert (out + [sources[sem]])[|base|..] == out[|base|..] + [sources[sem]];
      out := out + [sources[sem]];
      rest := rest - {sem};
    }
  }

  // ---------------------------------------------------------------------
  // CPU blending (processMorphTargets)

  /** The weight a pass uses: start weights for the base pass, end weights
      for the hybrid pass. */
  function Weight(t: MorphTarget, isBase: bool): real
  {
    if isBase then t.startWeight else t.endWeight
  }

  /** In CPU mode a target of weight 0 is skipped. */
  predicate Skipped(t: MorphTarget, isBase: bool, cpu: bool)
  {
    cpu && Weight(t, isBase) == 0.0
  }

  /** The target adds its sem vectors to the pass's buffer. */
  predicate Adds(t: MorphTarget, sem: Semantic, isBase: bool, cpu: bool)
  {
    !Skipped(t, isBase, cpu) && |VecOf(t, sem)| > 0
  }

  /** The buffers are sized by the base target: no target has more vectors
      of a kind than the base (processMorphTargets writes past its buffers
      otherwise). */
  predicate ShapesFit(base: MorphTarget, ts: map<string, MorphTarget>)
  {
    forall k :: k in ts ==>
      |VecOf(ts[k], Vertex)| <= |VecOf(base, Vertex)| &&
      |VecOf(ts[k], Normal)| <= |VecOf(base, Normal)| &&
      |VecOf(ts[k], Tangent)| <= |VecOf(base, Tangent)|
  }

  /** A buffer after the targets named by order, in that order, added their
      weighted sem vectors to start. */
  function Blend(start: seq<real>, ts: map<string, MorphTarget>, order: seq<string>, sem: Semantic,
                 width: nat, isBase: bool, cpu: bool): (r: seq<real>)
    requires width == 3 || width == 4
    requires forall k :: k in order ==> k in ts && |VecOf(ts[k], sem)| * width <= |start|
    ensures |r| == |start|
  {
    if order == [] then start
    else
      var n := |order| - 1;
      var acc := Blend(start, ts, order[..n], sem, width, isBase, cpu);
      var t := ts[order[n]];
      if Adds(t, sem, isBase, cpu) then AddScaled(acc, Packed(VecOf(t, sem), width), Weight(t, isBase)) else acc
  }

  ghost predicate Contributes(ts: map<string, MorphTarget>, order: seq<string>, sem: Semantic, isBase: bool, cpu: bool)
  {
    exists k :: k in order && k in ts && Adds(ts[k], sem, isBase, cpu)
  }

  /** What target k adds to float m of the sem buffer. */
  function Share(ts: map<string, MorphTarget>, k: string, sem: Semantic, width: nat, isBase: bool, cpu: bool, m: nat): real
    requires width == 3 || width == 4
  {
    if k in ts && Adds(ts[k], sem, isBase, cpu) then
      var p := Packed(VecOf(ts[k], sem), width);
      if m < |p| then p[m] * Weight(ts[k], isBase) else 0.0
    else 0.0
  }

  function Shares(ts: map<string, MorphTarget>, sem: Semantic, width: nat, isBase: bool, cpu: bool, m: nat): (c: map<string, real>)
    requires width == 3 || width == 4
    ensures c.Keys == ts.Keys
  {
    map k | k in ts :: Share(ts, k, sem, width, isBase, cpu, m)
  }

  function SumOf(s: seq<string>, c: map<string, real>): real
    requires forall k :: k in s ==> k in c
  {
    if s == [] then 0.0 else SumOf(s[..|s| - 1], c) + c[s[|s| - 1]]
  }

  lemma {:induction false} SumOfRemove(s: seq<string>, i: nat, c: map<string, real>)
    requires i < |s| && forall k :: k in s ==> k in c
    ensures SumOf(s, c) == SumOf(s[..i] + s[i + 1..], c) + c[s[i]]
  {
    var n := |s| - 1;
    if i < n {
      var s' := s[..n];
      SumOfRemove(s', i, c);
      var d := s[..i] + s[i + 1..];
      assert d[..|d| - 1] == s'[..i] + s'[i + 1..];
      assert d[|d| - 1] == s[n];
    } else {
      assert s[..i] + s[i + 1..] == s[..n];
    }
  }

  lemma PermutationMembers(a: seq<string>, b: seq<string>)
    requires multiset(a) == multiset(b)
    ensures forall k :: k in b ==> k in a
  {
    forall k | k in b ensures k in a {
      assert k in multiset(b);
    }
  }

  /** Dropping one matching element from each side keeps a permutation. */
  lemma DropMatched(a: seq<string>, j: nat, b: seq<string>, i: nat)
    requires multiset(a) == multiset(b) && j < |a| && i < |b| && a[j] == b[i]
    ensures multiset(a[..j] + a[j + 1..]) == multiset(b[..i] + b[i + 1..])
  {
    RemoveAtMultiset(a, j);
    RemoveAtMultiset(b, i);
  }

  lemma RemoveAtMultiset(s: seq<string>, i: nat)
    requires i < |s|
    ensures multiset(s[..i] + s[i + 1..]) == multiset(s) - multiset{s[i]}
  {
    assert s == s[..i] + [s[i]] + s[i + 1..];
    assert multiset(s) == multiset(s[..i]) + multiset{s[i]} + multiset(s[i + 1..]);
  }

  /** The sum does not depend on the order of the names. */
  lemma {:induction false} SumOfPermutation(a: seq<string>, b: seq<string>, c: map<string, real>)
    requires multiset(a) == multiset(b)
    requires forall k :: k in a ==> k in c
    ensures forall k :: k in b ==> k in c
    ensures SumOf(a, c) == SumOf(b, c)
  {
    PermutationMembers(a, b);
    if a != [] {
      var n := |a| - 1;
      var x := a[n];
      PermutationMembers(b, a);
      assert x in a;
      var i :| 0 <= i < |b| && b[i] == x;
      var b' := b[..i] + b[i + 1..];
      DropMatched(a, n, b, i);
      assert a[..n] + a[n + 1..] == a[..n];
      SumOfPermutation(a[..n], b', c);
      SumOfRemove(b, i, c);
    } else {
      assert |b| == |multiset(b)| == 0;
    }
  }

  /** Float m of a blended buffer is the start value plus every target's
      share. */
  lemma {:induction false} BlendAt(start: seq<real>, ts: map<string, MorphTarget>, order: seq<string>, sem: Semantic,
                                   width: nat, isBase: bool, cpu: bool, m: nat)
    requires width == 3 || width == 4
    requires forall k :: k in order ==> k in ts && |VecOf(ts[k], sem)| * width <= |start|
    requires m < |start|
    ensures Blend(start, ts, order, sem, width, isBase, cpu)[m] ==
            start[m] + SumOf(order, Shares(ts, sem, width, isBase, cpu, m))
  {
    if order != [] {
      var n := |order| - 1;
      var c := Shares(ts, sem, width, isBase, cpu, m);
      BlendAt(start, ts, order[..n], sem, width, isBase, cpu, m);
      BlendStepAt(start, ts, order, sem, width, isBase, cpu, m);
      assert order[n] in order;
      assert SumOf(order, c) == SumOf(order[..n], c) + c[order[n]];
    }
  }

  lemma BlendStepAt(start: seq<real>, ts: map<string, MorphTarget>, order: seq<string>, sem: Semantic,
                    width: nat, isBase: bool, cpu: bool, m: nat)
    requires width == 3 || width == 4
    requires forall k :: k in order ==> k in ts && |VecOf(ts[k], sem)| * width <= |start|
    requires m < |start| && order != []
    ensures Blend(start, ts, order, sem, width, isBase, cpu)[m] ==
            Blend(start, ts, order[..|order| - 1], sem, width, isBase, cpu)[m] +
            Share(ts, order[|order| - 1], sem, width, isBase, cpu, m)
  {
    var n := |order| - 1;
    assert order[n] in order;
    var acc := Blend(start, ts, order[..n], sem, width, isBase, cpu);
    var t := ts[order[n]];
    if !Adds(t, sem, isBase, cpu) {
      assert Blend(start, ts, order, sem, width, isBase, cpu) == acc;
      assert Share(ts, order[n], sem, width, isBase, cpu, m) == 0.0;
      assert Blend(start, ts, order, sem, width, isBase, cpu)[m] == acc[m] + Share(ts, order[n], sem, width, isBase, cpu, m);
    } else {
      var p := Packed(VecOf(t, sem), width);
      var w := Weight(t, isBase);
      assert Blend(start, ts, order, sem, width, isBase, cpu) == AddScaled(acc, p, w);
      AddScaledAt(acc, p, w, m);
      ShareIs(ts, order[n], sem, width, isBase, cpu, m);
      assert Blend(start, ts, order, sem, width, isBase, cpu)[m] == acc[m] + Share(ts, order[n], sem, width, isBase, cpu, m);
    }
  }

  lemma ShareIs(ts: map<string, MorphTarget>, k: string, sem: Semantic, width: nat, isBase: bool, cpu: bool, m: nat)
    requires width == 3 || width == 4
    requires k in ts && Adds(ts[k], sem, isBase, cpu)
    ensures var p := Packed(VecOf(ts[k], sem), width);
            Share(ts, k, sem, width, isBase, cpu, m) == if m < |p| then p[m] * Weight(ts[k], isBase) else 0.0
  {
  }

  lemma AddScaledAt(data: seq<real>, p: seq<real>, w: real, m: nat)
    requires |p| <= |data| && m < |data|
    ensures AddScaled(data, p, w)[m] == data[m] + if m < |p| then p[m] * w else 0.0
  {
  }

  /** The blend does not depend on the order the targets are visited in
      (the std::map order of the source). */
  lemma BlendOrderFree(start: seq<real>, ts: map<string, MorphTarget>, a: seq<string>, b: seq<string>, sem: Semantic,
                       width: nat, isBase: bool, cpu: bool)
    requires width == 3 || width == 4
    requires multiset(a) == multiset(b)
    requires forall k :: k in a ==> k in ts && |VecOf(ts[k], sem)| * width <= |start|
    ensures forall k :: k in b ==> k in ts && |VecOf(ts[k], sem)| * width <= |start|
    ensures Blend(start, ts, a, sem, width, isBase, cpu) == Blend(start, ts, b, sem, width, isBase, cpu)
  {
    forall k | k in b ensures k in ts && |VecOf(ts[k], sem)| * width <= |start| {
      assert k in multiset(b);
      assert k in multiset(a);
    }
    forall m | 0 <= m < |start|
      ensures Blend(start, ts, a, sem, width, isBase, cpu)[m] == Blend(start, ts, b, sem, width, isBase, cpu)[m]
    {
      BlendAt(start, ts, a, sem, width, isBase, cpu, m);
      BlendAt(start, ts, b, sem, width, isBase, cpu, m);
      SumOfPermutation(a, b, Shares(ts, sem, width, isBase, cpu, m));
    }
  }

  /** Skipping a target of weight 0 gives the buffer adding it would. */
  lemma SkipHarmless(data: seq<real>, p: seq<real>)
    requires |p| <= |data|
    ensures AddScaled(data, p, 0.0) == data
  {
  }

  /** Reset to zeros, then the base added with weight 1: the base data. */
  lemma BaseBuffer(zeros: seq<real>, p: seq<real>)
    requires |zeros| == |p| && forall m :: 0 <= m < |zeros| ==> zeros[m] == 0.0
    ensures AddScaled(zeros, p, 1.0) == p
  {
  }

  /** One kind's buffer as processMorphTargets builds it before its loop. */
  method BaseFloats(vs: seq<Vec4>, width: nat) returns (out: array<real>)
    requires width == 3 || width == 4
    ensures fresh(out)
    ensures out[..] == Packed(vs, width)
  {
    out := new real[|vs| * width];
    ResetFloats(out, |vs|, width);
    ghost var zeros := out[..];
    AddWeighted(out, vs, 1.0, width);
    BaseBuffer(zeros, Packed(vs, width));
  }

  /** One kind's buffer gains the target's vectors of that kind, if it has
      any (processMorphTargets' size checks). */
  method AddIfPresent(out: array<real>, vs: seq<Vec4>, weight: real, width: nat) returns (added: bool)
    requires width == 3 || width == 4
    requires |vs| * width <= out.Length
    modifies out
    ensures added <==> |vs| > 0
    ensures out[..] == if added then AddScaled(old(out[..]), Packed(vs, width), weight) else old(out[..])
  {
    added := |vs| > 0;
    if added {
      AddWeighted(out, vs, weight, width);
    }
  }

  lemma BlendExtend(start: seq<real>, ts: map<string, MorphTarget>, order: seq<string>, k: string, sem: Semantic,
                    width: nat, isBase: bool, cpu: bool)
    requires width == 3 || width == 4
    requires forall j :: j in order ==> j in ts && |VecOf(ts[j], sem)| * width <= |start|
    requires k in ts && |VecOf(ts[k], sem)| * width <= |start|
    ensures forall j :: j in order + [k] ==> j in ts && |VecOf(ts[j], sem)| * width <= |start|
    ensures Blend(start, ts, order + [k], sem, width, isBase, cpu) ==
            if Adds(ts[k], sem, isBase, cpu)
            then AddScaled(Blend(start, ts, order, sem, width, isBase, cpu), Packed(VecOf(ts[k], sem), width), Weight(ts[k], isBase))
            else Blend(start, ts, order, sem, width, isBase, cpu)
    ensures Contributes(ts, order + [k], sem, isBase, cpu) <==>
            Contributes(ts, order, sem, isBase, cpu) || Adds(ts[k], sem, isBase, cpu)
  {
    assert (order + [k])[..|order|] == order;
    assert k in order + [k];
    if Contributes(ts, order + [k], sem, isBase, cpu) && !Adds(ts[k], sem, isBase, cpu) {
      var j :| j in order + [k] && j in ts && Adds(ts[j], sem, isBase, cpu);
      assert j in order;
    }
  }

  /** The three buffers and flags after the targets in order were added. */
  ghost predicate BlendState(base: MorphTarget, ts: map<string, MorphTarget>, isBase: bool, cpu: bool, order: seq<string>,
                             pos: seq<real>, norm: seq<real>, tan: seq<real>, hasPos: bool, hasNorm: bool, hasTan: bool)
    requires ShapesFit(base, ts) && forall k :: k in order ==> k in ts
  {
    pos == Blend(Packed(VecOf(base, Vertex), 3), ts, order, Vertex, 3, isBase, cpu) &&
    norm == Blend(Packed(VecOf(base, Normal), 3), ts, order, Normal, 3, isBase, cpu) &&
    tan == Blend(Packed(VecOf(base, Tangent), 4), ts, order, Tangent, 4, isBase, cpu) &&
    (hasPos <==> Contributes(ts, order, Vertex, isBase, cpu)) &&
    (hasNorm <==> Contributes(ts, order, Normal, isBase, cpu)) &&
    (hasTan <==> Contributes(ts, order, Tangent, isBase, cpu))
  }

  /** The result of adding target t to a kind's buffer. */
  function AddTarget1(data: seq<real>, t: MorphTarget, sem: Semantic, width: nat, isBase: bool, cpu: bool): seq<real>
    requires width == 3 || width == 4
    requires |VecOf(t, sem)| * width <= |data|
  {
    if Adds(t, sem, isBase, cpu) then AddScaled(data, Packed(VecOf(t, sem), width), Weight(t, isBase)) else data
  }

  lemma BlendStateStep(base: MorphTarget, ts: map<string, MorphTarget>, isBase: bool, cpu: bool, order: seq<string>,
                       k: string, pos: seq<real>, norm: seq<real>, tan: seq<real>, hasPos: bool, hasNorm: bool, hasTan: bool)
    requires ShapesFit(base, ts) && (forall j :: j in order ==> j in ts) && k in ts
    requires BlendState(base, ts, isBase, cpu, order, pos, norm, tan, hasPos, hasNorm, hasTan)
    ensures |VecOf(ts[k], Vertex)| * 3 <= |pos| && |VecOf(ts[k], Normal)| * 3 <= |norm| && |VecOf(ts[k], Tangent)| * 4 <= |tan|
    ensures forall j :: j in order + [k] ==> j in ts
    ensures BlendState(base, ts, isBase, cpu, order + [k],
                       AddTarget1(pos, ts[k], Vertex, 3, isBase, cpu),
                       AddTarget1(norm, ts[k], Normal, 3, isBase, cpu),
                       AddTarget1(tan, ts[k], Tangent, 4, isBase, cpu),
                       hasPos || Adds(ts[k], Vertex, isBase, cpu),
                       hasNorm || Adds(ts[k], Normal, isBase, cpu),
                       hasTan || Adds(ts[k], Tangent, isBase, cpu))
  {
    BlendExtend(Packed(VecOf(base, Vertex), 3), ts, order, k, Vertex, 3, isBase, cpu);
    BlendExtend(Packed(VecOf(base, Normal), 3), ts, order, k, Normal, 3, isBase, cpu);
    BlendExtend(Packed(VecOf(base, Tangent), 4), ts, order, k, Tangent, 4, isBase, cpu);
  }

  /** One target of processMorphTargets' loop: skipped at weight 0 in CPU
      mode, otherwise each of its non-empty kinds is added to its buffer. */
  method BlendTarget(pa: array<real>, na: array<real>, ta: array<real>, t: MorphTarget, isBase: bool, cpu: bool)
    returns (addsPos: bool, addsNorm: bool, addsTan: bool)
    requires pa != na && na != ta && pa != ta
    requires |VecOf(t, Vertex)| * 3 <= pa.Length && |VecOf(t, Normal)| * 3 <= na.Length && |VecOf(t, Tangent)| * 4 <= ta.Length
    modifies pa, na, ta
    ensures addsPos == Adds(t, Vertex, isBase, cpu) && addsNorm == Adds(t, Normal, isBase, cpu) && addsTan == Adds(t, Tangent, isBase, cpu)
    ensures pa[..] == AddTarget1(old(pa[..]), t, Vertex, 3, isBase, cpu)
    ensures na[..] == AddTarget1(old(na[..]), t, Normal, 3, isBase, cpu)
    ensures ta[..] == AddTarget1(old(ta[..]), t, Tangent, 4, isBase, cpu)
  {
    addsPos, addsNorm, addsTan := false, false, false;
    if !(cpu && Weight(t, isBase) == 0.0) {
      var w := Weight(t, isBase);
      addsPos := AddIfPresent(pa, VecOf(t, Vertex), w, 3);
      addsNorm := AddIfPresent(na, VecOf(t, Normal), w, 3);
      addsTan := AddIfPresent(ta, VecOf(t, Tangent), w, 4);
    }
  }

  /** One iteration of processMorphTargets' loop over the targets. */
  method BlendNext(base: MorphTarget, ts: map<string, MorphTarget>, isBase: bool, cpu: bool, ghost order: seq<string>,
                   k: string, pa: array<real>, na: array<real>, ta: array<real>, hasPos: bool, hasNorm: bool, hasTan: bool)
    returns (hasPos': bool, hasNorm': bool, hasTan': bool)
    requires pa != na && na != ta && pa != ta
    requires ShapesFit(base, ts) && (forall j :: j in order ==> j in ts) && k in ts
    requires BlendState(base, ts, isBase, cpu, order, pa[..], na[..], ta[..], hasPos, hasNorm, hasTan)
    modifies pa, na, ta
    ensures forall j :: j in order + [k] ==> j in ts
    ensures BlendState(base, ts, isBase, cpu, order + [k], pa[..], na[..], ta[..], hasPos', hasNorm', hasTan')
  {
    BlendStateStep(base, ts, isBase, cpu, order, k, pa[..], na[..], ta[..], hasPos, hasNorm, hasTan);
    var ap, an, at := BlendTarget(pa, na, ta, ts[k], isBase, cpu);
    hasPos', hasNorm', hasTan' := hasPos || ap, hasNorm || an, hasTan || at;
  }

  /** The buffer-building part of processMorphTargets: the base's data,
      then every target's weighted vectors added in the map's order (an
      order this model leaves open), with the flags saying which kinds some
      target added to. */
  method BlendBuffers(base: MorphTarget, ts: map<string, MorphTarget>, isBase: bool, cpu: bool)
    returns (pos: seq<real>, norm: seq<real>, tan: seq<real>, hasPos: bool, hasNorm: bool, hasTan: bool,
             ghost order: seq<string>)
    requires ShapesFit(base, ts)
    ensures IsEnumeration(order, ts.Keys)
    ensures BlendState(base, ts, isBase, cpu, order, pos, norm, tan, hasPos, hasNorm, hasTan)
  {
    var pa := BaseFloats(VecOf(base, Vertex), 3);
    var na := BaseFloats(VecOf(base, Normal), 3);
    var ta := BaseFloats(VecOf(base, Tangent), 4);
    hasPos, hasNorm, hasTan := false, false, false;
    order := [];
    var rest := ts.Keys;
    while rest != {}
      invariant rest <= ts.Keys
      invariant IsEnumeration(order, ts.Keys - rest)
      invariant BlendState(base, ts, isBase, cpu, order, pa[..], na[..], ta[..], hasPos, hasNorm, hasTan)
      decreases |rest|
    {
      var k :| k in rest;
      hasPos, hasNorm, hasTan := BlendNext(base, ts, isBase, cpu, order, k, pa, na, ta, hasPos, hasNorm, hasTan);
      EnumerationNext(order, ts.Keys, rest, k);
      order := order + [k];
      rest := rest - {k};
    }
    EnumerationDone(order, ts.Keys);
    pos, norm, tan := pa[..], na[..], ta[..];
  }

  /** The source a pass emits for one kind: the base pass emits the blended
      position, normal or tangent whenever the base has that kind; the
      hybrid pass emits morph attribute `slot` only when some target added
      to it. */
  ghost function EmitOne(base: MorphTarget, ts: map<string, MorphTarget>, order: seq<string>, sem: Semantic, slot: nat,
                         width: nat, isBase: bool, cpu: bool, elementIndex: int): seq<GeoSource>
    requires width == 3 || width == 4
    requires forall k :: k in order ==> k in ts && |VecOf(ts[k], sem)| <= |VecOf(base, sem)|
  {
    var vs := VecOf(base, sem);
    if (isBase && |vs| > 0) || (!isBase && Contributes(ts, order, sem, isBase, cpu)) then
      [GeoSource(if isBase then sem else Morph(slot), elementIndex, |vs|, width,
                 Blend(Packed(vs, width), ts, order, sem, width, isBase, cpu))]
    else []
  }

  /** Everything one processMorphTargets pass appends, in its order. */
  ghost function Emitted(base: MorphTarget, ts: map<string, MorphTarget>, order: seq<string>, isBase: bool, cpu: bool,
                         elementIndex: int): seq<GeoSource>
    requires ShapesFit(base, ts) && forall k :: k in order ==> k in ts
  {
    EmitOne(base, ts, order, Vertex, 0, 3, isBase, cpu, elementIndex) +
    EmitOne(base, ts, order, Normal, 1, 3, isBase, cpu, elementIndex) +
    EmitOne(base, ts, order, Tangent, 2, 4, isBase, cpu, elementIndex)
  }

  /** The emitted sources do not depend on the order the targets were
      visited in. */
  lemma EmittedOrderFree(base: MorphTarget, ts: map<string, MorphTarget>, a: seq<string>, b: seq<string>,
                         isBase: bool, cpu: bool, elementIndex: int)
    requires ShapesFit(base, ts)
    requires IsEnumeration(a, ts.Keys) && IsEnumeration(b, ts.Keys)
    ensures Emitted(base, ts, a, isBase, cpu, elementIndex) == Emitted(base, ts, b, isBase, cpu, elementIndex)
  {
    EnumerationsPermute(a, b, ts.Keys);
    BlendOrderFree(Packed(VecOf(base, Vertex), 3), ts, a, b, Vertex, 3, isBase, cpu);
    BlendOrderFree(Packed(VecOf(base, Normal), 3), ts, a, b, Normal, 3, isBase, cpu);
    BlendOrderFree(Packed(VecOf(base, Tangent), 4), ts, a, b, Tangent, 4, isBase, cpu);
    assert Contributes(ts, a, Vertex, isBase, cpu) == Contributes(ts, b, Vertex, isBase, cpu);
    assert Contributes(ts, a, Normal, isBase, cpu) == Contributes(ts, b, Normal, isBase, cpu);
    assert Contributes(ts, a, Tangent, isBase, cpu) == Contributes(ts, b, Tangent, isBase, cpu);
  }

  lemma {:induction false} EnumerationsPermute(a: seq<string>, b: seq<string>, keys: set<string>)
    requires IsEnumeration(a, keys) && IsEnumeration(b, keys)
    ensures multiset(a) == multiset(b)
  {
    forall x ensures multiset(a)[x] == multiset(b)[x] {
      EnumerationCountsOnce(a, x);
      EnumerationCountsOnce(b, x);
      if x in keys {
        assert x in multiset(a) && x in multiset(b);
      } else {
        assert x !in multiset(a) && x !in multiset(b);
      }
    }
  }

  /** operator[] on a missing kind inserts an empty vector. */
  function Touch(v: map<Semantic, seq<Vec4>>, sem: Semantic): map<Semantic, seq<Vec4>>
  {
    if sem in v then v else v[sem := []]
  }

  /** A target after processMorphTargets looked up its three kinds. */
  function Touched(t: MorphTarget): (r: MorphTarget)
    ensures r.vecs.Keys == t.vecs.Keys + {Vertex, Normal, Tangent}
    ensures forall sem :: VecOf(r, sem) == VecOf(t, sem)
    ensures r.(vecs := t.vecs) == t
  {
    t.(vecs := Touch(Touch(Touch(t.vecs, Vertex), Normal), Tangent))
  }

  /** The targets after a pass: all but the skipped ones are touched. */
  function TouchedAll(ts: map<string, MorphTarget>, isBase: bool, cpu: bool): (r: map<string, MorphTarget>)
    ensures r.Keys == ts.Keys
  {
    map k | k in ts :: if Skipped(ts[k], isBase, cpu) then ts[k] else Touched(ts[k])
  }

  lemma TouchedAllFits(base: MorphTarget, ts: map<string, MorphTarget>, isBase: bool, cpu: bool)
    requires ShapesFit(base, ts)
    ensures ShapesFit(Touched(base), TouchedAll(ts, isBase, cpu))
  {
  }

  /** The hybrid update's second pass, run on the touched targets in any
      order, emits what it would have emitted on the untouched ones in the
      first pass's order. */
  lemma SecondPassAgrees(base: MorphTarget, ts: map<string, MorphTarget>, a: seq<string>, b: seq<string>, elementIndex: int)
    requires ShapesFit(base, ts)
    requires IsEnumeration(a, ts.Keys) && IsEnumeration(b, ts.Keys)
    ensures Emitted(Touched(base), TouchedAll(ts, true, false), b, false, false, elementIndex) ==
            Emitted(base, ts, a, false, false, elementIndex)
  {
    EmittedTouched(base, ts, b, true, false, false, false, elementIndex);
    EmittedOrderFree(base, ts, b, a, false, false, elementIndex);
  }

  /** A pass keeps where every target is computed. */
  lemma TouchedKeepsFlags(ts: map<string, MorphTarget>, isBase: bool, cpu: bool, isCPU: bool)
    requires forall k :: k in ts ==> ts[k].isCPU == isCPU
    ensures forall k :: k in TouchedAll(ts, isBase, cpu) ==> TouchedAll(ts, isBase, cpu)[k].isCPU == isCPU
  {
  }

  /** Blending reads only a target's vectors, weights and skip test. */
  lemma {:induction false} BlendSameData(start: seq<real>, ts: map<string, MorphTarget>, ts': map<string, MorphTarget>,
                                         order: seq<string>, sem: Semantic, width: nat, isBase: bool, cpu: bool)
    requires width == 3 || width == 4
    requires forall k :: k in order ==> k in ts && |VecOf(ts[k], sem)| * width <= |start|
    requires SameData(ts, ts', order, sem, isBase, cpu)
    ensures Blend(start, ts', order, sem, width, isBase, cpu) == Blend(start, ts, order, sem, width, isBase, cpu)
  {
    if order != [] {
      BlendSameData(start, ts, ts', order[..|order| - 1], sem, width, isBase, cpu);
    }
  }

  /** The targets in order carry the same sem vectors, weight and skip in
      ts' as in ts. */
  ghost predicate SameData(ts: map<string, MorphTarget>, ts': map<string, MorphTarget>, order: seq<string>, sem: Semantic,
                           isBase: bool, cpu: bool)
  {
    forall k :: k in order ==> k in ts && k in ts' && VecOf(ts'[k], sem) == VecOf(ts[k], sem) &&
                               Weight(ts'[k], isBase) == Weight(ts[k], isBase) &&
                               Skipped(ts'[k], isBase, cpu) == Skipped(ts[k], isBase, cpu)
  }

  lemma ContributesSame(ts: map<string, MorphTarget>, ts': map<string, MorphTarget>, order: seq<string>, sem: Semantic,
                        isBase: bool, cpu: bool)
    requires SameData(ts, ts', order, sem, isBase, cpu)
    ensures Contributes(ts', order, sem, isBase, cpu) == Contributes(ts, order, sem, isBase, cpu)
  {
    if Contributes(ts', order, sem, isBase, cpu) {
      var k :| k in order && k in ts' && Adds(ts'[k], sem, isBase, cpu);
      assert Adds(ts[k], sem, isBase, cpu);
    }
    if Contributes(ts, order, sem, isBase, cpu) {
      var k :| k in order && k in ts && Adds(ts[k], sem, isBase, cpu);
      assert Adds(ts'[k], sem, isBase, cpu);
    }
  }

  lemma TouchedAgree(ts: map<string, MorphTarget>, order: seq<string>, sem: Semantic,
                     touchedBase: bool, touchedCpu: bool, isBase: bool, cpu: bool)
    requires forall k :: k in order ==> k in ts
    ensures SameData(ts, TouchedAll(ts, touchedBase, touchedCpu), order, sem, isBase, cpu)
  {
    TouchedSameData(ts, touchedBase, touchedCpu, isBase, cpu);
  }

  lemma TouchedSameData(ts: map<string, MorphTarget>, touchedBase: bool, touchedCpu: bool, isBase: bool, cpu: bool)
    ensures forall k, sem :: k in ts ==> VecOf(TouchedAll(ts, touchedBase, touchedCpu)[k], sem) == VecOf(ts[k], sem)
    ensures forall k :: k in ts ==> Weight(TouchedAll(ts, touchedBase, touchedCpu)[k], isBase) == Weight(ts[k], isBase)
    ensures forall k :: k in ts ==> Skipped(TouchedAll(ts, touchedBase, touchedCpu)[k], isBase, cpu) == Skipped(ts[k], isBase, cpu)
  {
    forall k | k in ts
      ensures TouchedAll(ts, touchedBase, touchedCpu)[k].startWeight == ts[k].startWeight
      ensures TouchedAll(ts, touchedBase, touchedCpu)[k].endWeight == ts[k].endWeight
    {
      var r := Touched(ts[k]);
      assert r.(vecs := ts[k].vecs) == ts[k];
    }
  }

  lemma EmitOneTouched(base: MorphTarget, ts: map<string, MorphTarget>, order: seq<string>, sem: Semantic, slot: nat,
                       width: nat, touchedBase: bool, touchedCpu: bool, isBase: bool, cpu: bool, elementIndex: int)
    requires width == 3 || width == 4
    requires forall k :: k in order ==> k in ts && |VecOf(ts[k], sem)| <= |VecOf(base, sem)|
    ensures forall k :: k in order ==>
              k in TouchedAll(ts, touchedBase, touchedCpu) &&
              |VecOf(TouchedAll(ts, touchedBase, touchedCpu)[k], sem)| <= |VecOf(Touched(base), sem)|
    ensures EmitOne(Touched(base), TouchedAll(ts, touchedBase, touchedCpu), order, sem, slot, width, isBase, cpu, elementIndex) ==
            EmitOne(base, ts, order, sem, slot, width, isBase, cpu, elementIndex)
  {
    var ts' := TouchedAll(ts, touchedBase, touchedCpu);
    TouchedAgree(ts, order, sem, touchedBase, touchedCpu, isBase, cpu);
    BlendSameData(Packed(VecOf(base, sem), width), ts, ts', order, sem, width, isBase, cpu);
    ContributesSame(ts, ts', order, sem, isBase, cpu);
  }

  /** The lookups a pass makes do not change what a later pass emits. */
  lemma EmittedTouched(base: MorphTarget, ts: map<string, MorphTarget>, order: seq<string>,
                       touchedBase: bool, touchedCpu: bool, isBase: bool, cpu: bool, elementIndex: int)
    requires ShapesFit(base, ts) && forall k :: k in order ==> k in ts
    ensures ShapesFit(Touched(base), TouchedAll(ts, touchedBase, touchedCpu))
    ensures Emitted(Touched(base), TouchedAll(ts, touchedBase, touchedCpu), order, isBase, cpu, elementIndex) ==
            Emitted(base, ts, order, isBase, cpu, elementIndex)
  {
    TouchedAllFits(base, ts, touchedBase, touchedCpu);
    EmitOneTouched(base, ts, order, Vertex, 0, 3, touchedBase, touchedCpu, isBase, cpu, elementIndex);
    EmitOneTouched(base, ts, order, Normal, 1, 3, touchedBase, touchedCpu, isBase, cpu, elementIndex);
    EmitOneTouched(base, ts, order, Tangent, 2, 4, touchedBase, touchedCpu, isBase, cpu, elementIndex);
  }

  // ---------------------------------------------------------------------
  // What configureShadersGPU leaves behind

  lemma {:induction false} SumCostSame(names: seq<string>, c1: map<string, nat>, c2: map<string, nat>)
    requires forall n :: n in names ==> n in c1 && n in c2 && c1[n] == c2[n]
    ensures SumCost(names, c1) == SumCost(names, c2)
  {
    if names != [] {
      SumCostSame(names[1..], c1, c2);
    }
  }

  lemma SumCostRemove(b: seq<string>, i: nat, cost: map<string, nat>)
    requires i < |b| && forall n :: n in b ==> n in cost
    ensures SumCost(b, cost) == SumCost(b[..i] + b[i + 1..], cost) + cost[b[i]]
  {
    assert b == b[..i] + ([b[i]] + b[i + 1..]);
    SumCostAppend(b[..i], [b[i]] + b[i + 1..], cost);
    SumCostAppend(b[..i], b[i + 1..], cost);
    assert ([b[i]] + b[i + 1..])[1..] == b[i + 1..];
  }

  /** The attribute count of a list of targets does not depend on its order. */
  lemma {:induction false} SumCostPermutation(a: seq<string>, b: seq<string>, cost: map<string, nat>)
    requires multiset(a) == multiset(b)
    requires forall n :: n in a ==> n in cost
    ensures forall n :: n in b ==> n in cost
    ensures SumCost(a, cost) == SumCost(b, cost)
  {
    PermutationMembers(a, b);
    if a != [] {
      var x := a[0];
      PermutationMembers(b, a);
      assert x in a;
      var i :| 0 <= i < |b| && b[i] == x;
      var b' := b[..i] + b[i + 1..];
      DropMatched(a, 0, b, i);
      assert a[..0] + a[1..] == a[1..];
      assert forall n :: n in a[1..] ==> n in a;
      SumCostPermutation(a[1..], b', cost);
      SumCostRemove(b, i, cost);
    } else {
      assert |b| == |multiset(b)| == 0;
    }
  }

  /** The same targets, their data kept up to the slots their sources
      carry, with exactly the chosen ones active. */
  ghost predicate GPUConfigured(before: map<string, MorphTarget>, after: map<string, MorphTarget>, chosen: seq<string>)
  {
    after.Keys == before.Keys &&
    forall k :: k in after ==> SameUpToSlots(before[k], after[k]) && (after[k].isActive <==> k in chosen)
  }

  /** Every source of an active target carries a morph slot below seven. */
  ghost predicate InSlots(ts: map<string, MorphTarget>)
  {
    forall k, sem :: k in ts && ts[k].isActive && sem in ts[k].sources ==>
      ts[k].sources[sem].semantic.Morph? && ts[k].sources[sem].semantic.slot < MaxSupportedAttributes
  }

  lemma MarkedIs(ts: map<string, MorphTarget>, chosen: seq<string>)
    ensures MarkActive(Deactivated(ts), chosen).Keys == ts.Keys
    ensures forall k :: k in ts ==> MarkActive(Deactivated(ts), chosen)[k] == ts[k].(isActive := k in chosen)
  {
  }

  /** With nothing to choose every target is inactive, which fits. */
  lemma DeactivatedFit(ts: map<string, MorphTarget>)
    ensures GPUConfigured(ts, Deactivated(ts), [])
    ensures ActiveFit(Deactivated(ts))
  {
    var d := Deactivated(ts);
    var none: seq<string> := [];
    assert ListsActive(none, d);
    assert SumCost(none, Costs(d)) == 0;
  }

  /** Marking a selection whose attributes fit keeps the active targets
      within the slots. */
  lemma MarkedFit(ts: map<string, MorphTarget>, chosen: seq<string>)
    requires Distinct(chosen) && (forall k :: k in chosen ==> k in ts)
    requires SumCost(chosen, Costs(ts)) <= MaxSupportedAttributes
    ensures GPUConfigured(ts, MarkActive(Deactivated(ts), chosen), chosen)
    ensures ActiveFit(MarkActive(Deactivated(ts), chosen))
  {
    var t1 := MarkActive(Deactivated(ts), chosen);
    MarkedIs(ts, chosen);
    forall k | k in chosen ensures k in Costs(t1) && Costs(t1)[k] == Costs(ts)[k] {
      assert Attribs(t1[k]) == Attribs(ts[k]);
    }
    SumCostSame(chosen, Costs(ts), Costs(t1));
    assert ListsActive(chosen, t1);
  }

  lemma RelabelSameCosts(t1: map<string, MorphTarget>, done: map<string, MorphTarget>)
    requires forall k :: k in done ==> k in t1 && Relabelled(t1[k], done[k], MaxSupportedAttributes)
    ensures (t1 + done).Keys == t1.Keys
    ensures forall k :: k in t1 ==> (t1 + done)[k].isActive == t1[k].isActive && Costs(t1 + done)[k] == Costs(t1)[k]
  {
    var t2 := t1 + done;
    forall k | k in t2 ensures t2[k].isActive == t1[k].isActive && Attribs(t2[k]) == Attribs(t1[k]) {
      if k in done {
        SameUpToSlotsCost(t1[k], done[k]);
      }
    }
  }

  /** Relabelling the active targets' sources keeps the fit. */
  lemma RelabelKeepsFit(t1: map<string, MorphTarget>, done: map<string, MorphTarget>)
    requires ActiveFit(t1)
    requires forall k :: k in done ==> k in t1 && Relabelled(t1[k], done[k], MaxSupportedAttributes)
    ensures ActiveFit(t1 + done)
  {
    var s :| ListsActive(s, t1) && SumCost(s, Costs(t1)) <= MaxSupportedAttributes;
    var t2 := t1 + done;
    RelabelSameCosts(t1, done);
    SumCostSame(s, Costs(t1), Costs(t2));
    assert ListsActive(s, t2);
  }

  /** The greedy selection over any ordering of the targets picks distinct
      targets whose attributes fit the slots. */
  lemma SelectionFits(names: seq<string>, order: seq<string>, ts: map<string, MorphTarget>)
    requires IsEnumeration(names, ts.Keys) && multiset(order) == multiset(names)
    ensures forall n :: n in order ==> n in Costs(ts)
    ensures Distinct(Select(order, Costs(ts), 0)) && (forall k :: k in Select(order, Costs(ts), 0) ==> k in ts)
    ensures SumCost(Select(order, Costs(ts), 0), Costs(ts)) <= MaxSupportedAttributes
  {
    PermutationKeepsEnumeration(names, order, ts.Keys);
    SelectDistinct(order, Costs(ts), 0);
    SelectBudget(order, Costs(ts), 0);
  }

  /** The chosen targets, visited in any order, meet the slot assignment's
      demands. */
  lemma AssignReady(ts: map<string, MorphTarget>, chosen: seq<string>, visit: seq<string>)
    requires forall k :: k in ts ==> !ts[k].isCPU
    requires Distinct(chosen) && (forall k :: k in chosen ==> k in ts)
    requires SumCost(chosen, Costs(ts)) <= MaxSupportedAttributes
    requires multiset(visit) == multiset(chosen)
    ensures Distinct(visit)
    ensures forall c :: c in visit ==> c in MarkActive(Deactivated(ts), chosen) && !MarkActive(Deactivated(ts), chosen)[c].isCPU &&
                                       c in Costs(ts) && Costs(ts)[c] == |MarkActive(Deactivated(ts), chosen)[c].sources|
    ensures SumCost(visit, Costs(ts)) == SumCost(chosen, Costs(ts))
    ensures (set k | k in visit) == (set k | k in chosen)
  {
    MarkedIs(ts, chosen);
    assert IsEnumeration(chosen, set k | k in chosen);
    PermutationKeepsEnumeration(chosen, visit, set k | k in chosen);
    SumCostPermutation(chosen, visit, Costs(ts));
    forall c | c in visit ensures c in chosen {
      assert c in multiset(visit);
    }
    forall c | c in chosen ensures c in visit {
      assert c in multiset(chosen);
    }
  }

  /** configureShadersGPU's outcome once the chosen targets got their slots. */
  lemma SlotsAssigned(ts: map<string, MorphTarget>, chosen: seq<string>, done: map<string, MorphTarget>)
    requires Distinct(chosen) && (forall k :: k in chosen ==> k in ts)
    requires SumCost(chosen, Costs(ts)) <= MaxSupportedAttributes
    requires done.Keys == (set k | k in chosen)
    requires forall k :: k in done ==> Relabelled(MarkActive(Deactivated(ts), chosen)[k], done[k], MaxSupportedAttributes)
    ensures GPUConfigured(ts, MarkActive(Deactivated(ts), chosen) + done, chosen)
    ensures ActiveFit(MarkActive(Deactivated(ts), chosen) + done)
    ensures InSlots(MarkActive(Deactivated(ts), chosen) + done)
  {
    var marked := MarkActive(Deactivated(ts), chosen);
    MarkedIs(ts, chosen);
    MarkedFit(ts, chosen);
    assert forall k :: k in done ==> k in marked;
    RelabelKeepsFit(marked, done);
    SlotsConfigured(ts, marked, chosen, done);
    SlotsInRange(marked, chosen, done);
  }

  lemma SameUpToSlotsTrans(a: MorphTarget, b: MorphTarget, c: MorphTarget)
    requires SameUpToSlots(a, b) && SameUpToSlots(b, c)
    ensures SameUpToSlots(a, c)
  {
  }

  /** Relabelling keeps a configuration's targets and active flags. */
  lemma SlotsConfigured(ts: map<string, MorphTarget>, marked: map<string, MorphTarget>, chosen: seq<string>,
                        done: map<string, MorphTarget>)
    requires GPUConfigured(ts, marked, chosen)
    requires forall k :: k in done ==> k in marked && Relabelled(marked[k], done[k], MaxSupportedAttributes)
    ensures GPUConfigured(ts, marked + done, chosen)
  {
    forall k | k in marked + done
      ensures SameUpToSlots(ts[k], (marked + done)[k]) && ((marked + done)[k].isActive <==> k in chosen)
    {
      if k in done {
        SameUpToSlotsTrans(ts[k], marked[k], done[k]);
      }
    }
  }

  /** Once every active target is relabelled, every active source carries a
      slot. */
  lemma SlotsInRange(marked: map<string, MorphTarget>, chosen: seq<string>, done: map<string, MorphTarget>)
    requires done.Keys == (set k | k in chosen)
    requires forall k :: k in marked ==> (marked[k].isActive <==> k in chosen)
    requires forall k :: k in done ==> k in marked && Relabelled(marked[k], done[k], MaxSupportedAttributes)
    ensures InSlots(marked + done)
  {
    forall k, sem | k in marked + done && (marked + done)[k].isActive && sem in (marked + done)[k].sources
      ensures (marked + done)[k].sources[sem].semantic.Morph? &&
              (marked + done)[k].sources[sem].semantic.slot < MaxSupportedAttributes
    {
      assert k in done;
    }
  }

  /** configureShadersHybrid's scan over every target's vector kinds. */
  method ScanVecs(ts: map<string, MorphTarget>) returns (hasVertex: bool, hasNormal: bool, hasTangent: bool)
    ensures hasVertex == HasVecs(ts, Vertex) && hasNormal == HasVecs(ts, Normal) && hasTangent == HasVecs(ts, Tangent)
  {
    hasVertex, hasNormal, hasTangent := false, false, false;
    var rest := ts.Keys;
    while rest != {}
      invariant rest <= ts.Keys
      invariant hasVertex == exists k :: k in ts && k !in rest && Vertex in ts[k].vecs
      invariant hasNormal == exists k :: k in ts && k !in rest && Normal in ts[k].vecs
      invariant hasTangent == exists k :: k in ts && k !in rest && Tangent in ts[k].vecs
      decreases |rest|
    {
      var k :| k in rest;
      var vecs := ts[k].vecs;
      hasVertex := hasVertex || Vertex in vecs;
      hasNormal := hasNormal || Normal in vecs;
      hasTangent := hasTangent || Tangent in vecs;
      rest := rest - {k};
    }
  }

  // ---------------------------------------------------------------------
  // The morpher object

  /** The form a target takes at a compute location: the CPU form for CPU
      and hybrid, the GPU form (up to the morph slots its sources were
      given) for GPU. */
  ghost predicate Converted(location: ComputeLocation, before: MorphTarget, after: MorphTarget,
                            read: GeoSource -> seq<Vec4>, elementIndex: int)
  {
    if location == GPU then SameUpToSlots(ToGPU(before, elementIndex), after)
    else after == ToCPU(before, read)
  }

  /** Converting the targets after storing t under name converts t and
      every other old target. */
  lemma PutConverted(location: ComputeLocation, ts: map<string, MorphTarget>, name: string, t: MorphTarget,
                     after: map<string, MorphTarget>, read: GeoSource -> seq<Vec4>, elementIndex: int)
    requires after.Keys == ts[name := t].Keys
    requires forall k :: k in after ==> Converted(location, ts[name := t][k], after[k], read, elementIndex)
    ensures after.Keys == ts.Keys + {name}
    ensures Converted(location, t, after[name], read, elementIndex)
    ensures forall k :: k in ts && k != name ==> Converted(location, ts[k], after[k], read, elementIndex)
  {
  }

  /** A fresh modifier `mod` with id `id` replaced the morpher's previous
      one in the material's list. */
  ghost predicate Installed(oldMod: Option<ShaderModifier>, oldMods: seq<ShaderModifier>, id: nat,
                            mod: Option<ShaderModifier>, mods: seq<ShaderModifier>)
  {
    mod.Some? && mod.value.id == id &&
    mods == (if oldMod.Some? then Remove(oldMods, oldMod.value) else oldMods) + [mod.value]
  }

  /** After an installation the previous modifier has left the material
      and the new one is on it. */
  lemma InstalledReplaces(oldMod: Option<ShaderModifier>, oldMods: seq<ShaderModifier>, id: nat,
                          mod: Option<ShaderModifier>, mods: seq<ShaderModifier>)
    requires Installed(oldMod, oldMods, id, mod, mods)
    requires oldMod.Some? ==> oldMod.value.id < id
    ensures mod.Some? && mod.value in mods
    ensures oldMod.Some? ==> oldMod.value !in mods
    ensures forall x :: x in oldMods && (oldMod.Some? ==> x != oldMod.value) ==> x in mods
  {
  }

  /** A target as addTarget makes it: its sources keyed by semantic, both
      weights set to the given one. */
  function NewTarget(srcs: seq<GeoSource>, weight: real): (r: MorphTarget)
    ensures !r.isCPU && !r.isActive && r.vecs == map[]
    ensures forall sem :: sem in r.sources <==> exists i :: 0 <= i < |srcs| && srcs[i].semantic == sem
  {
    forall sem ensures sem in Keyed(srcs) <==> exists i :: 0 <= i < |srcs| && srcs[i].semantic == sem {
      KeyedLast(srcs, sem);
    }
    Fresh().(sources := Keyed(srcs), startWeight := weight, endWeight := weight)
  }

  /** addTarget's loop keying the sources by semantic. */
  method MakeTarget(srcs: seq<GeoSource>, weight: real) returns (t: MorphTarget)
    ensures t == NewTarget(srcs, weight)
  {
    var sources := IndexBySemantic(srcs);
    t := Fresh().(sources := sources, startWeight := weight, endWeight := weight);
  }

  /** Converting a GPU target to the CPU form does not carry its weights
      over: the converted target starts at weight 0, so the CPU pass skips
      it until its weight is set again. */
  lemma ConversionDropsWeights(t: MorphTarget, read: GeoSource -> seq<Vec4>)
    requires !t.isCPU
    ensures ToCPU(t, read).startWeight == 0.0 && ToCPU(t, read).endWeight == 0.0
    ensures Skipped(ToCPU(t, read), true, true)
  {
  }

  /** A target's weights after a non-animated setWeightForTarget: the
      hybrid path keeps the previous end weight as the start of its mix. */
  function Reweighted(t: MorphTarget, weight: real, location: ComputeLocation): (r: MorphTarget)
    ensures r.sources == t.sources && r.vecs == t.vecs && r.isCPU == t.isCPU && r.isActive == t.isActive
    ensures location == Hybrid ==> r.startWeight == t.endWeight && r.endWeight == weight
    ensures location != Hybrid ==> r.startWeight == weight && r.endWeight == t.endWeight
  {
    if location == Hybrid then t.(startWeight := t.endWeight, endWeight := weight)
    else t.(startWeight := weight)
  }

  /** Changing a weight keeps the active targets within the slots. */
  lemma ReweightKeepsFit(ts: map<string, MorphTarget>, key: string, weight: real, location: ComputeLocation)
    requires key in ts && ActiveFit(ts)
    ensures ActiveFit(ts[key := Reweighted(ts[key], weight, location)])
  {
    var s :| ListsActive(s, ts) && SumCost(s, Costs(ts)) <= MaxSupportedAttributes;
    var ts' := ts[key := Reweighted(ts[key], weight, location)];
    SumCostSame(s, Costs(ts), Costs(ts'));
    assert ListsActive(s, ts');
  }

  /** The targets are in the location's form; on the GPU there are at most
      seven and the active ones fit the slots. */
  ghost predicate TargetsValid(ts: map<string, MorphTarget>, location: ComputeLocation)
  {
    (forall k :: k in ts ==> ts[k].isCPU == (location != GPU)) &&
    (location == GPU ==> |ts| <= MaxSupportedAttributes && ActiveFit(ts))
  }

  /** Changing a weight keeps the targets valid. */
  lemma ReweightValid(ts: map<string, MorphTarget>, key: string, weight: real, location: ComputeLocation)
    requires key in ts && TargetsValid(ts, location)
    ensures TargetsValid(ts[key := Reweighted(ts[key], weight, location)], location)
  {
    var ts' := ts[key := Reweighted(ts[key], weight, location)];
    assert ts'.Keys == ts.Keys;
    assert |ts'| == |ts|;
    if location == GPU {
      ReweightKeepsFit(ts, key, weight, location);
    }
  }

  /** The names configureShadersGPU walks (the map's order, left open)
      and the targets its greedy walk chooses: in that order when all
      attributes fit, by descending start weight otherwise, none when no
      target has attributes. */
  ghost predicate GPUChoice(ts: map<string, MorphTarget>, names: seq<string>, chosen: seq<string>)
  {
    IsEnumeration(names, ts.Keys) &&
    var cost := Costs(ts);
    var total := SumCost(names, cost);
    chosen == if total == 0 then []
              else if total <= MaxSupportedAttributes then Select(names, cost, 0)
              else Select(SortByWeight(names, Weights(ts), true), cost, 0)
  }

  /** Whether configureShadersGPU builds a modifier: some target has
      attributes and the sanity check on the chosen count passes. */
  ghost predicate Installs(ts: map<string, MorphTarget>, names: seq<string>, chosen: seq<string>)
    requires IsEnumeration(names, ts.Keys)
  {
    SumCost(names, Costs(ts)) > 0 && |chosen| <= MaxSupportedAttributes
  }

  /** A GPU modifier using exactly the slots the chosen targets' attributes
      need, each slot's weight read from a chosen target. */
  ghost predicate Slotted(m: ShaderModifier, chosen: seq<string>, cost: map<string, nat>)
    requires forall k :: k in chosen ==> k in cost
  {
    SlotsUpTo(m, SumCost(chosen, cost)) &&
    forall j :: 0 <= j < |m.uniforms| ==> m.uniforms[j].target in chosen
  }

  /** Every active target's sources hold distinct slots of m whose weight
      uniforms read that target, and every slot of m is held by a source
      of the active target its uniform reads. */
  ghost predicate SlotsHeld(ts: map<string, MorphTarget>, m: ShaderModifier)
  {
    m.GPUModifier? &&
    (forall k :: k in ts && ts[k].isActive ==> SourcesDistinct(ts[k])) &&
    (forall k, sem :: k in ts && ts[k].isActive && sem in ts[k].sources ==>
       SlotOwner(m, ts[k].sources[sem].semantic, k)) &&
    forall j :: 0 <= j < |m.uniforms| ==>
      m.uniforms[j].target in ts && ts[m.uniforms[j].target].isActive && HoldsSlot(ts[m.uniforms[j].target], j)
  }

  /** No morph slot is shared: two sources of active targets with the same
      semantic are the same source of the same target. */
  lemma SlotsOneToOne(ts: map<string, MorphTarget>, m: ShaderModifier, k1: string, s1: Semantic, k2: string, s2: Semantic)
    requires SlotsHeld(ts, m)
    requires k1 in ts && ts[k1].isActive && s1 in ts[k1].sources
    requires k2 in ts && ts[k2].isActive && s2 in ts[k2].sources
    requires ts[k1].sources[s1].semantic == ts[k2].sources[s2].semantic
    ensures k1 == k2 && s1 == s2
  {
    assert SlotOwner(m, ts[k1].sources[s1].semantic, k1);
    assert SlotOwner(m, ts[k2].sources[s2].semantic, k2);
    assert SourcesDistinct(ts[k1]);
  }

  /** The relabelled chosen targets, merged over the marked map, hold the
      modifier's slots. */
  lemma MergedHeld(marked: map<string, MorphTarget>, done: map<string, MorphTarget>, chosen: seq<string>,
                   m: ShaderModifier, n: nat)
    requires SlotsHeldBy(done, m, n) && done.Keys == (set k | k in chosen) && done.Keys <= marked.Keys
    requires forall k :: k in marked ==> (marked[k].isActive <==> k in chosen)
    requires forall k :: k in done ==> done[k].isActive == marked[k].isActive
    ensures SlotsHeld(marked + done, m)
  {
    var after := marked + done;
    forall k | k in after && after[k].isActive ensures k in done && after[k] == done[k] {
      assert k in chosen;
    }
  }

  lemma AssignedSlotted(ts: map<string, MorphTarget>, visit: seq<string>, chosen: seq<string>, cost: map<string, nat>,
                        done: map<string, MorphTarget>, m: ShaderModifier, n: nat)
    requires AssignInv(ts, visit, cost, visit, [], done, m, n)
    requires forall k :: k in chosen ==> k in cost
    requires SumCost(visit, cost) == SumCost(chosen, cost)
    requires (set k | k in visit) == (set k | k in chosen)
    ensures Slotted(m, chosen, cost)
  {
    forall j | 0 <= j < |m.uniforms| ensures m.uniforms[j].target in chosen {
      assert m.uniforms[j].target in (set k | k in visit);
    }
  }

  /** The computation of configureShadersGPU on the target map: every
      target deactivated, the chosen ones marked active and relabelled into
      consecutive morph slots, and the modifier built for them. */
  method PlanGPU(ts: map<string, MorphTarget>)
    returns (after: map<string, MorphTarget>, m: Option<ShaderModifier>, ghost names: seq<string>, ghost chosen: seq<string>)
    requires forall k :: k in ts ==> !ts[k].isCPU
    ensures GPUChoice(ts, names, chosen)
    ensures GPUConfigured(ts, after, chosen) && ActiveFit(after)
    ensures m.Some? <==> Installs(ts, names, chosen)
    ensures m.Some? ==> InSlots(after) && Slotted(m.value, chosen, Costs(ts)) && SlotsHeld(after, m.value)
  {
    var deactivated, ns, total := Deactivate(ts);
    names := ns;
    if total == 0 {
      chosen := [];
      DeactivatedFit(ts);
      return deactivated, None, names, chosen;
    }
    after, m, chosen := ChooseAndSlot(ts, deactivated, ns, total);
  }

  /** configureShadersGPU past the deactivation loop, when some target has
      attributes. */
  method ChooseAndSlot(ts: map<string, MorphTarget>, deactivated: map<string, MorphTarget>, names: seq<string>, total: nat)
    returns (after: map<string, MorphTarget>, m: Option<ShaderModifier>, ghost chosen: seq<string>)
    requires forall k :: k in ts ==> !ts[k].isCPU
    requires deactivated == Deactivated(ts) && IsEnumeration(names, ts.Keys)
    requires total == SumCost(names, Costs(ts)) > 0
    ensures chosen == if total <= MaxSupportedAttributes then Select(names, Costs(ts), 0)
                      else Select(SortByWeight(names, Weights(ts), true), Costs(ts), 0)
    ensures GPUConfigured(ts, after, chosen) && ActiveFit(after)
    ensures m.Some? <==> |chosen| <= MaxSupportedAttributes
    ensures m.Some? ==> InSlots(after) && Slotted(m.value, chosen, Costs(ts)) && SlotsHeld(after, m.value)
  {
    var cost := Costs(ts);
    var order := names;
    if total > MaxSupportedAttributes {
      order := SortByWeight(names, Weights(ts), true);
    }
    SelectionFits(names, order, ts);
    var selected := SelectTargets(order, cost);
    chosen := selected;
    after := MarkActive(deactivated, selected);
    if |selected| > MaxSupportedAttributes {
      MarkedFit(ts, selected);
      return after, None, chosen;
    }
    // The chosen map is walked in its own (key) order, left open here.
    var visit :| multiset(visit) == multiset(selected);
    AssignReady(ts, selected, visit);
    var done, slots, n := AssignSlots(after, visit, cost);
    assert done.Keys == (set k | k in selected);
    SlotsAssigned(ts, selected, done);
    AssignedSlotted(after, visit, selected, cost, done, slots, n);
    MarkedIs(ts, selected);
    MergedHeld(after, done, selected, slots, n);
    after := after + done;
    m := Some(slots);
  }

  /** addTarget's conversions compose: a target converted to the CPU form
      by the fallback and then to the location's form is in the form a
      single conversion gives. */
  lemma ConvertedThrough(location: ComputeLocation, ts: map<string, MorphTarget>, mid: map<string, MorphTarget>,
                         after: map<string, MorphTarget>, name: string,
                         read: GeoSource -> seq<Vec4>, elementIndex: int)
    requires mid.Keys == ts.Keys
    requires forall k :: k in mid ==> mid[k] == ts[k] || (location != GPU && mid[k] == ToCPU(ts[k], read))
    requires forall k :: k in mid && k != name ==> k in after && Converted(location, mid[k], after[k], read, elementIndex)
    ensures forall k :: k in ts && k != name ==> Converted(location, ts[k], after[k], read, elementIndex)
  {
  }

  /** The source one processMorphTargets pass emits for one kind, built
      from that kind's blended buffer and flag. */
  method EmitKind(base: MorphTarget, ts: map<string, MorphTarget>, ghost order: seq<string>, sem: Semantic, slot: nat,
                  width: nat, isBase: bool, cpu: bool, elementIndex: int, data: seq<real>, has: bool)
    returns (r: seq<GeoSource>)
    requires width == 3 || width == 4
    requires forall k :: k in order ==> k in ts && |VecOf(ts[k], sem)| <= |VecOf(base, sem)|
    requires data == Blend(Packed(VecOf(base, sem), width), ts, order, sem, width, isBase, cpu)
    requires has <==> Contributes(ts, order, sem, isBase, cpu)
    ensures r == EmitOne(base, ts, order, sem, slot, width, isBase, cpu, elementIndex)
  {
    var vs := VecOf(base, sem);
    r := [];
    if (isBase && |vs| > 0) || (!isBase && has) {
      r := [GeoSource(if isBase then sem else Morph(slot), elementIndex, |vs|, width, data)];
    }
  }

  /** The tail of processMorphTargets: the three kinds' sources in order. */
  method EmitAll(base: MorphTarget, ts: map<string, MorphTarget>, ghost order: seq<string>, isBase: bool, cpu: bool,
                 elementIndex: int, pos: seq<real>, norm: seq<real>, tan: seq<real>,
                 hasPos: bool, hasNorm: bool, hasTan: bool)
    returns (r: seq<GeoSource>)
    requires ShapesFit(base, ts) && forall k :: k in order ==> k in ts
    requires BlendState(base, ts, isBase, cpu, order, pos, norm, tan, hasPos, hasNorm, hasTan)
    ensures r == Emitted(base, ts, order, isBase, cpu, elementIndex)
  {
    var ps := EmitKind(base, ts, order, Vertex, 0, 3, isBase, cpu, elementIndex, pos, hasPos);
    var ns := EmitKind(base, ts, order, Normal, 1, 3, isBase, cpu, elementIndex, norm, hasNorm);
    var tg := EmitKind(base, ts, order, Tangent, 2, 4, isBase, cpu, elementIndex, tan, hasTan);
    r := ps + ns + tg;
  }

  /** The morpher's state, for saying what a call leaves unchanged. */
  datatype Fields = Fields(location: ComputeLocation, needsUpdate: bool, base: MorphTarget,
                           targets: map<string, MorphTarget>, shaderMod: Option<ShaderModifier>,
                           materialModifiers: seq<ShaderModifier>, nextModifierId: nat, hybridDuration: real)

  /** VROMorpher. The material it installs its shader modifier on is
      represented by that material's modifier list; modifiers are values
      whose ids stand for object identity. */
  class Morpher {
    var location: ComputeLocation
    var needsUpdate: bool
    var base: MorphTarget
    var targets: map<string, MorphTarget>
    var shaderMod: Option<ShaderModifier>
    var materialModifiers: seq<ShaderModifier>
    /** The id the next modifier made gets. */
    var nextModifierId: nat
    /** _hybridAnimationDuration, the hybrid mix uniform. */
    var hybridDuration: real
    const elementIndex: int
    /** VROGeometrySource::processVertices, reading a source's vertices. */
    const read: GeoSource -> seq<Vec4>

    function Snapshot(): Fields
      reads this
    {
      Fields(location, needsUpdate, base, targets, shaderMod, materialModifiers, nextModifierId, hybridDuration)
    }

    /** The installed modifier is on the material and older than any to come. */
    ghost predicate ModsOk()
      reads this
    {
      shaderMod.Some? ==> shaderMod.value in materialModifiers && shaderMod.value.id < nextModifierId
    }

    /** Base and targets are in the location's form; on the GPU there are
        at most seven targets and the active ones fit the slots. */
    ghost predicate Valid()
      reads this
    {
      ModsOk() &&
      base.isCPU == (location != GPU) &&
      TargetsValid(targets, location)
    }

    constructor (baseSources: seq<GeoSource>, materialMods: seq<ShaderModifier>, read: GeoSource -> seq<Vec4>)
      requires |baseSources| > 0
      ensures Valid()
      ensures location == GPU && needsUpdate && targets == map[] && shaderMod == None
      ensures base == Fresh().(sources := Keyed(baseSources), startWeight := 1.0, endWeight := 1.0)
      ensures elementIndex == baseSources[0].elementIndex && this.read == read
      ensures materialModifiers == materialMods && hybridDuration == 0.0
    {
      var srcs := IndexBySemantic(baseSources);
      location := GPU;
      needsUpdate := true;
      shaderMod := None;
      base := Fresh().(sources := srcs, startWeight := 1.0, endWeight := 1.0);
      targets := map[];
      materialModifiers := materialMods;
      nextModifierId := 0;
      hybridDuration := 0.0;
      elementIndex := baseSources[0].elementIndex;
      this.read := read;
      new;
      assert ListsActive([], targets);
    }
  
    /** Replacing the morpher's modifier on the material with mod, given
        the next id (the tail of both configureShaders methods). */
    method Install(mod: ShaderModifier)
      requires ModsOk()
      modifies this
      ensures ModsOk()
      ensures Installed(old(shaderMod), old(materialModifiers), old(nextModifierId), shaderMod, materialModifiers)
      ensures shaderMod == Some(mod.(id := old(nextModifierId))) && nextModifierId == old(nextModifierId) + 1
      ensures location == old(location) && needsUpdate == old(needsUpdate) && base == old(base) &&
              targets == old(targets) && hybridDuration == old(hybridDuration)
    {
      var m := mod.(id := nextModifierId);
      nextModifierId := nextModifierId + 1;
      if shaderMod.Some? {
        materialModifiers := Remove(materialModifiers, shaderMod.value);
      }
      materialModifiers := materialModifiers + [m];
      shaderMod := Some(m);
    }

    /** configureShadersHybrid: one mix per kind some target morphs. */
    method ConfigureShadersHybrid()
      requires ModsOk()
      modifies this
      ensures ModsOk()
      ensures Installed(old(shaderMod), old(materialModifiers), old(nextModifierId), shaderMod, materialModifiers)
      ensures shaderMod.value == HybridModifier(old(nextModifierId),
                HybridSlots(HasVecs(targets, Vertex), HasVecs(targets, Normal), HasVecs(targets, Tangent)))
      ensures nextModifierId == old(nextModifierId) + 1
      ensures location == old(location) && needsUpdate == old(needsUpdate) && base == old(base) &&
              targets == old(targets) && hybridDuration == old(hybridDuration)
    {
      var hasVertex, hasNormal, hasTangent := ScanVecs(targets);
      Install(HybridModifier(0, HybridSlots(hasVertex, hasNormal, hasTangent)));
    }

    /** configureShadersGPU: the plan's targets replace the old ones and
        its modifier, when there is one, replaces the morpher's. */
    method ConfigureShadersGPU() returns (ghost names: seq<string>, ghost chosen: seq<string>)
      requires ModsOk() && forall k :: k in targets ==> !targets[k].isCPU
      modifies this
      ensures ModsOk()
      ensures location == old(location) && needsUpdate == old(needsUpdate) && base == old(base) &&
              hybridDuration == old(hybridDuration)
      ensures GPUChoice(old(targets), names, chosen)
      ensures GPUConfigured(old(targets), targets, chosen) && ActiveFit(targets)
      ensures !Installs(old(targets), names, chosen) ==>
                shaderMod == old(shaderMod) && materialModifiers == old(materialModifiers) &&
                nextModifierId == old(nextModifierId)
      ensures Installs(old(targets), names, chosen) ==>
                InSlots(targets) && nextModifierId == old(nextModifierId) + 1 &&
                Installed(old(shaderMod), old(materialModifiers), old(nextModifierId), shaderMod, materialModifiers) &&
                Slotted(shaderMod.value, chosen, Costs(old(targets))) && SlotsHeld(targets, shaderMod.value)
    {
      var after, m;
      after, m, names, chosen := PlanGPU(targets);
      targets := after;
      if m.Some? {
        Install(m.value);
      }
    }
  
    /** configureMorphTargets: base and targets are converted to the
        location's form, then the location's shaders are configured. */
    method ConfigureMorphTargets()
      requires ModsOk() && (location == GPU ==> |targets| <= MaxSupportedAttributes)
      modifies this
      ensures Valid() && needsUpdate
      ensures location == old(location) && hybridDuration == old(hybridDuration)
      ensures targets.Keys == old(targets).Keys
      ensures base == Convert(old(base), location != GPU, read, elementIndex)
      ensures forall k :: k in targets ==> Converted(location, old(targets)[k], targets[k], read, elementIndex)
      ensures location == CPU ==>
                shaderMod == old(shaderMod) && materialModifiers == old(materialModifiers) &&
                nextModifierId == old(nextModifierId)
      ensures location == Hybrid ==>
                Installed(old(shaderMod), old(materialModifiers), old(nextModifierId), shaderMod, materialModifiers) &&
                shaderMod.value == HybridModifier(old(nextModifierId),
                  HybridSlots(HasVecs(targets, Vertex), HasVecs(targets, Normal), HasVecs(targets, Tangent)))
      ensures location == GPU && shaderMod != old(shaderMod) ==>
                Installed(old(shaderMod), old(materialModifiers), old(nextModifierId), shaderMod, materialModifiers) &&
                shaderMod.value.GPUModifier? && InSlots(targets)
      ensures location == GPU && shaderMod == old(shaderMod) ==> materialModifiers == old(materialModifiers)
    {
      if location == CPU {
        ConvertToCPU();
        return;
      }
      if location == Hybrid {
        ConvertToCPU();
        ConfigureShadersHybrid();
        return;
      }
      ConvertToGPU();
      ghost var names, chosen := ConfigureShadersGPU();
      assert |targets| == |targets.Keys| == |old(targets).Keys| == |old(targets)|;
    }

    /** The conversion loops of configureMorphTargets' CPU and hybrid
        branches. */
    method ConvertToCPU()
      modifies this
      ensures base == ToCPU(old(base), read) && targets.Keys == old(targets).Keys
      ensures forall k :: k in targets ==> targets[k] == ToCPU(old(targets)[k], read)
      ensures needsUpdate
      ensures Snapshot().(base := old(base), targets := old(targets), needsUpdate := old(needsUpdate)) == old(Snapshot())
    {
      base := ToCPU(base, read);
      targets := ConvertAll(targets, true, read, elementIndex);
      needsUpdate := true;
    }

    /** The conversion loops of configureMorphTargets' GPU branch. */
    method ConvertToGPU()
      modifies this
      ensures base == ToGPU(old(base), elementIndex) && targets.Keys == old(targets).Keys
      ensures forall k :: k in targets ==> targets[k] == ToGPU(old(targets)[k], elementIndex)
      ensures needsUpdate
      ensures Snapshot().(base := old(base), targets := old(targets), needsUpdate := old(needsUpdate)) == old(Snapshot())
    {
      base := ToGPU(base, elementIndex);
      targets := ConvertAll(targets, false, read, elementIndex);
      needsUpdate := true;
    }
  
    /** setComputeLocation: refused for the GPU when more targets exist
        than slots; otherwise the location changes and the targets are
        reconfigured. */
    method SetComputeLocation(mode: ComputeLocation) returns (ok: bool)
      requires Valid()
      modifies this
      ensures Valid()
      ensures ok <==> !(mode == GPU && |old(targets)| > MaxSupportedAttributes)
      ensures !ok ==> Snapshot() == old(Snapshot())
      ensures ok ==> location == mode && needsUpdate && targets.Keys == old(targets).Keys &&
                     base == Convert(old(base), mode != GPU, read, elementIndex) &&
                     forall k :: k in targets ==> Converted(mode, old(targets)[k], targets[k], read, elementIndex)
    {
      if mode == GPU && |targets| > MaxSupportedAttributes {
        return false;
      }
      location := mode;
      ConfigureMorphTargets();
      return true;
    }

    /** addTarget: an empty source list is refused; a GPU morpher already
        holding seven targets falls back to the CPU first; the new target
        (replacing any of the same name) is added and all are
        reconfigured. */
    method AddTarget(srcs: seq<GeoSource>, name: string, weight: real)
      requires Valid()
      modifies this
      ensures Valid()
      ensures |srcs| == 0 ==> Snapshot() == old(Snapshot())
      ensures |srcs| > 0 ==>
                location == (if old(location) == GPU && |old(targets)| >= MaxSupportedAttributes then CPU else old(location)) &&
                needsUpdate && targets.Keys == old(targets).Keys + {name} &&
                base == Convert(old(base), location != GPU, read, elementIndex) &&
                Converted(location, NewTarget(srcs, weight), targets[name], read, elementIndex) &&
                forall k :: k in old(targets) && k != name ==>
                  Converted(location, old(targets)[k], targets[k], read, elementIndex)
    {
      if |srcs| == 0 {
        return;
      }
      FallBackIfFull();
      ghost var mid := targets;
      var t := MakeTarget(srcs, weight);
      PutTarget(name, t);
      ConvertedThrough(location, old(targets), mid, targets, name, read, elementIndex);
    }

    /** The tail of addTarget: the target is stored under its name and all
        targets are reconfigured. */
    method PutTarget(name: string, t: MorphTarget)
      requires ModsOk() && (location == GPU ==> |targets| < MaxSupportedAttributes)
      requires base.isCPU == (location != GPU)
      modifies this
      ensures Valid() && needsUpdate && location == old(location)
      ensures targets.Keys == old(targets).Keys + {name}
      ensures base == old(base) || (location != GPU && base == ToCPU(old(base), read))
      ensures Converted(location, t, targets[name], read, elementIndex)
      ensures forall k :: k in old(targets) && k != name ==> Converted(location, old(targets)[k], targets[k], read, elementIndex)
    {
      ghost var ts0 := targets;
      targets := targets[name := t];
      ConfigureMorphTargets();
      PutConverted(location, ts0, name, t, targets, read, elementIndex);
    }

    /** addTarget's fallback: a GPU morpher holding seven targets switches
        to the CPU. */
    method FallBackIfFull()
      requires Valid()
      modifies this
      ensures Valid() && targets.Keys == old(targets).Keys
      ensures location == (if old(location) == GPU && |old(targets)| >= MaxSupportedAttributes then CPU else old(location))
      ensures location == GPU ==> |targets| < MaxSupportedAttributes
      ensures location == old(location) ==> Snapshot() == old(Snapshot())
      ensures location != old(location) ==> needsUpdate
      ensures base == old(base) || (location != GPU && base == ToCPU(old(base), read))
      ensures forall k :: k in targets ==>
                targets[k] == old(targets)[k] || (location != GPU && targets[k] == ToCPU(old(targets)[k], read))
    {
      if |targets| >= MaxSupportedAttributes && location == GPU {
        var switched := SetComputeLocation(CPU);
      }
    }
  
    /** processMorphTargets: the base pass (start weights) emits blended
        position, normal and tangent sources; the hybrid pass (end weights)
        emits morph attributes 0, 1 and 2 for the kinds some target adds
        to. Looking the kinds up inserts empty vectors for missing ones. */
    method ProcessMorphTargets(isBase: bool, out: seq<GeoSource>) returns (r: seq<GeoSource>, ghost order: seq<string>)
      requires location != GPU && ShapesFit(base, targets)
      modifies this
      ensures IsEnumeration(order, old(targets).Keys)
      ensures r == out + Emitted(old(base), old(targets), order, isBase, location == CPU, elementIndex)
      ensures base == Touched(old(base)) && targets == TouchedAll(old(targets), isBase, location == CPU)
      ensures Snapshot().(base := old(base), targets := old(targets)) == old(Snapshot())
    {
      var cpu := location == CPU;
      var pos, norm, tan, hasPos, hasNorm, hasTan;
      pos, norm, tan, hasPos, hasNorm, hasTan, order := BlendBuffers(base, targets, isBase, cpu);
      var emitted := EmitAll(base, targets, order, isBase, cpu, elementIndex, pos, norm, tan, hasPos, hasNorm, hasTan);
      r := out + emitted;
      base := Touched(base);
      targets := TouchedAll(targets, isBase, cpu);
    }
  
    /** update: nothing happens unless an update is due and targets exist.
        On the GPU the morph slot sources of this element are replaced by
        the sources of the active targets; otherwise this element's
        position, normal, tangent and morph 0..2 sources are replaced by the
        blended ones (and, in hybrid mode, the end-weight pass's morph
        attributes). */
    method Update(srcs: seq<GeoSource>) returns (updated: bool, r: seq<GeoSource>, ghost order: seq<string>)
      requires Valid()
      requires location != GPU ==> ShapesFit(base, targets)
      modifies this
      ensures Valid()
      ensures updated <==> old(needsUpdate) && |old(targets)| > 0
      ensures !updated ==> r == srcs && Snapshot() == old(Snapshot())
      ensures updated ==>
                !needsUpdate &&
                Snapshot().(base := old(base), targets := old(targets), needsUpdate := old(needsUpdate)) == old(Snapshot())
      ensures updated && location == GPU ==>
                base == old(base) && targets == old(targets) &&
                var kept := Kept(srcs, elementIndex, true);
                |r| >= |kept| && r[..|kept|] == kept && forall x :: x in r[|kept|..] <==> ActiveSource(targets, x)
      ensures updated && location != GPU ==> IsEnumeration(order, old(targets).Keys)
      ensures updated && location == CPU ==>
                r == Kept(srcs, elementIndex, false) + Emitted(old(base), old(targets), order, true, true, elementIndex) &&
                base == Touched(old(base)) && targets == TouchedAll(old(targets), true, true)
      ensures updated && location == Hybrid ==>
                r == Kept(srcs, elementIndex, false) + Emitted(old(base), old(targets), order, true, false, elementIndex) +
                     Emitted(old(base), old(targets), order, false, false, elementIndex) &&
                base == Touched(Touched(old(base))) &&
                targets == TouchedAll(TouchedAll(old(targets), true, false), false, false)
    {
      order := [];
      if !needsUpdate || |targets| == 0 {
        return false, srcs, order;
      }
      updated := true;
      if location == GPU {
        r := AppendActiveSources(targets, Kept(srcs, elementIndex, true));
        needsUpdate := false;
      } else if location == CPU {
        r, order := UpdateCPU(Kept(srcs, elementIndex, false));
      } else {
        r, order := UpdateHybrid(Kept(srcs, elementIndex, false));
      }
    }

    /** The CPU update's single pass. */
    method UpdateCPU(kept: seq<GeoSource>) returns (r: seq<GeoSource>, ghost order: seq<string>)
      requires Valid() && location == CPU && ShapesFit(base, targets)
      modifies this
      ensures Valid() && !needsUpdate
      ensures IsEnumeration(order, old(targets).Keys)
      ensures r == kept + Emitted(old(base), old(targets), order, true, true, elementIndex)
      ensures base == Touched(old(base)) && targets == TouchedAll(old(targets), true, true)
      ensures Snapshot().(base := old(base), targets := old(targets), needsUpdate := old(needsUpdate)) == old(Snapshot())
    {
      TouchedKeepsFlags(targets, true, true, true);
      r, order := ProcessMorphTargets(true, kept);
      needsUpdate := false;
    }

    /** The hybrid update's two passes; the second pass's visiting order
        does not matter (EmittedOrderFree), nor do the first pass's
        lookups (EmittedTouched). */
    method UpdateHybrid(kept: seq<GeoSource>) returns (r: seq<GeoSource>, ghost order: seq<string>)
      requires Valid() && location == Hybrid && ShapesFit(base, targets)
      modifies this
      ensures Valid() && !needsUpdate
      ensures IsEnumeration(order, old(targets).Keys)
      ensures r == kept + Emitted(old(base), old(targets), order, true, false, elementIndex) +
                   Emitted(old(base), old(targets), order, false, false, elementIndex)
      ensures base == Touched(Touched(old(base))) &&
              targets == TouchedAll(TouchedAll(old(targets), true, false), false, false)
      ensures Snapshot().(base := old(base), targets := old(targets), needsUpdate := old(needsUpdate)) == old(Snapshot())
    {
      TouchedKeepsFlags(targets, true, false, true);
      ghost var base0, targets0 := base, targets;
      var first;
      first, order := ProcessMorphTargets(true, kept);
      r := SecondPass(first, base0, targets0, order);
    }

    /** The hybrid update's end-weight pass, after the start-weight pass
        over base0 and targets0 in the given order. */
    method SecondPass(first: seq<GeoSource>, ghost base0: MorphTarget, ghost targets0: map<string, MorphTarget>,
                      ghost order: seq<string>) returns (r: seq<GeoSource>)
      requires Valid() && location == Hybrid && ShapesFit(base0, targets0)
      requires base == Touched(base0) && targets == TouchedAll(targets0, true, false)
      requires IsEnumeration(order, targets0.Keys)
      modifies this
      ensures Valid() && !needsUpdate
      ensures r == first + Emitted(base0, targets0, order, false, false, elementIndex)
      ensures base == Touched(Touched(base0)) && targets == TouchedAll(TouchedAll(targets0, true, false), false, false)
      ensures Snapshot().(base := old(base), targets := old(targets), needsUpdate := old(needsUpdate)) == old(Snapshot())
    {
      TouchedKeepsFlags(targets, false, false, true);
      TouchedAllFits(base0, targets0, true, false);
      ghost var order2;
      r, order2 := ProcessMorphTargets(false, first);
      SecondPassAgrees(base0, targets0, order, order2, elementIndex);
      needsUpdate := false;
    }

    /** setWeightForTarget without animation: unknown keys are ignored; on
        the CPU the start weight is set and an update is due; in hybrid
        mode the old end weight becomes the start of the mix, the new
        weight its end, the mix uniform is set to 1 and an update is due; on
        the GPU only the start weight is set (the slot uniforms read it). */
    method SetWeightForTarget(key: string, weight: real)
      requires Valid()
      modifies this
      ensures Valid()
      ensures key !in old(targets) ==> Snapshot() == old(Snapshot())
      ensures key in old(targets) ==>
                targets == old(targets)[key := Reweighted(old(targets)[key], weight, location)] &&
                needsUpdate == (old(needsUpdate) || location != GPU) &&
                hybridDuration == (if location == Hybrid then 1.0 else old(hybridDuration))
      ensures location == old(location) && base == old(base) && shaderMod == old(shaderMod) &&
              materialModifiers == old(materialModifiers) && nextModifierId == old(nextModifierId)
    {
      if key !in targets {
        return;
      }
      var t := targets[key];
      ReweightValid(targets, key, weight, location);
      targets := targets[key := Reweighted(t, weight, location)];
      if location != GPU {
        needsUpdate := true;
      }
      if location == Hybrid {
        hybridDuration := 1.0;
      }
    }

    /** getMorphTargetKeys. */
    method GetMorphTargetKeys() returns (keys: set<string>)
      ensures keys == targets.Keys
    {
      keys := {};
      var rest := targets.Keys;
      while rest != {}
        invariant rest <= targets.Keys && keys == targets.Keys - rest
        decreases |rest|
      {
        var k :| k in rest;
        keys := keys + {k};
        rest := rest - {k};
      }
    }
  }
}
