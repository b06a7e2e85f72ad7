/**
 * The OpenGL geometry substrate: turns a geometry's elements into index
 * buffers and its sources into vertex descriptors, one descriptor per
 * shared data array, with one attribute per source reading from it.
 *
 * Data arrays are named by `DataId`; the substrate's map from data array to
 * sources is ordered by that id, as std::map orders its keys.
 */
module GeometrySubstrateOpenGL {
  import opened Wrappers

  // GL enumerants (OpenGL ES 3.0 headers).
  const GL_POINTS := 0x0000
  const GL_LINES := 0x0001
  const GL_TRIANGLES := 0x0004
  const GL_TRIANGLE_STRIP := 0x0005
  const GL_SHORT := 0x1402
  const GL_UNSIGNED_SHORT := 0x1403
  const GL_INT := 0x1404
  const GL_UNSIGNED_INT := 0x1405
  const GL_FLOAT := 0x1406
  const GL_HALF_FLOAT := 0x140B

  datatype PrimitiveType = Triangle | TriangleStrip | Line | Point

  type DataId = nat

  datatype Element = Element(primitiveType: PrimitiveType, primitiveCount: nat, bytesPerIndex: int)

  datatype Source = Source(
    data: DataId, semantic: int, vertexCount: int, dataStride: int, dataOffset: int,
    floatComponents: bool, bytesPerComponent: int, componentsPerVertex: int)

  datatype ElementGL = ElementGL(primitiveType: int, indexCount: int, indexType: int, indexBufferOffset: int)
  datatype Attribute = Attribute(index: int, size: int, glType: int, offset: int)
  datatype VertexDescriptor = VertexDescriptor(data: DataId, stride: int, bufferSize: int, attributes: seq<Attribute>)

  function ParsePrimitiveType(p: PrimitiveType): (t: int)
  {
    match p
    case Triangle => GL_TRIANGLES
    case TriangleStrip => GL_TRIANGLE_STRIP
    case Line => GL_LINES
    case Point => GL_POINTS
  }

  /** The primitive type a GL primitive mode stands for. */
  function PrimitiveOf(t: int): Option<PrimitiveType>
  {
    if t == GL_TRIANGLES then Some(Triangle)
    else if t == GL_TRIANGLE_STRIP then Some(TriangleStrip)
    else if t == GL_LINES then Some(Line)
    else if t == GL_POINTS then Some(Point)
    else None
  }

  /** Distinct primitive types get distinct GL modes. */
  lemma PrimitiveTypeRoundTrip(p: PrimitiveType)
    ensures PrimitiveOf(ParsePrimitiveType(p)) == Some(p)
  {
  }

  /**
   * GL component type and count for a source; None where the source aborts
   * (a component size other than 2 or 4 bytes).
   */
  function ParseVertexFormat(s: Source): (r: Option<(int, int)>)
    ensures r.Some? <==> s.bytesPerComponent == 2 || s.bytesPerComponent == 4
    ensures r.Some? ==> r.value.1 == s.componentsPerVertex
    ensures r.Some? ==> (s.floatComponents <==> r.value.0 == GL_HALF_FLOAT || r.value.0 == GL_FLOAT)
    ensures r.Some? ==> (s.bytesPerComponent == 2 <==> r.value.0 == GL_HALF_FLOAT || r.value.0 == GL_SHORT)
  {
    if s.floatComponents then
      if s.bytesPerComponent == 2 then Some((GL_HALF_FLOAT, s.componentsPerVertex))
      else if s.bytesPerComponent == 4 then Some((GL_FLOAT, s.componentsPerVertex))
      else None
    else
      if s.bytesPerComponent == 2 then Some((GL_SHORT, s.componentsPerVertex))
      else if s.bytesPerComponent == 4 then Some((GL_INT, s.componentsPerVertex))
      else None
  }

  predicate AllFormatsValid(sources: seq<Source>)
  {
    forall x :: x in sources ==> ParseVertexFormat(x).Some?
  }

  /** Sources reading the same data array share its stride. */
  predicate SharedStride(sources: seq<Source>)
  {
    forall i, j :: 0 <= i < |sources| && 0 <= j < |sources| && sources[i].data == sources[j].data ==>
      sources[i].dataStride == sources[j].dataStride
  }

  /** The GL element for a geometry element with `indexCount` indices. */
  function ElementFor(e: Element, indexCount: int): (g: ElementGL)
    ensures g.indexType == (if e.bytesPerIndex == 2 then GL_UNSIGNED_SHORT else GL_UNSIGNED_INT)
    ensures g.indexBufferOffset == 0 && g.indexCount == indexCount
    ensures PrimitiveOf(g.primitiveType) == Some(e.primitiveType)
  {
    ElementGL(ParsePrimitiveType(e.primitiveType), indexCount,
              if e.bytesPerIndex == 2 then GL_UNSIGNED_SHORT else GL_UNSIGNED_INT, 0)
  }

  function ElementsFor(es: seq<Element>, indicesCount: (nat, PrimitiveType) -> int): (r: seq<ElementGL>)
    ensures |r| == |es|
  {
    seq(|es|, i requires 0 <= i < |es| => ElementFor(es[i], indicesCount(es[i].primitiveCount, es[i].primitiveType)))
  }

  // ---- grouping sources by data array ----

  function DataIds(s: seq<Source>): set<DataId>
  {
    set x | x in s :: x.data
  }

  /** The sources reading data array `d`, in their original order. */
  function Group(s: seq<Source>, d: DataId): (r: seq<Source>)
    ensures |r| <= |s|
  {
    if s == [] then []
    else
      var t := s[..|s| - 1];
      var x := s[|s| - 1];
      assert s == t + [x];
      Group(t, d) + (if x.data == d then [x] else [])
  }

  /** A group holds exactly the sources reading its data array. */
  lemma {:induction false} GroupMembers(s: seq<Source>, d: DataId)
    ensures forall x :: x in Group(s, d) <==> x in s && x.data == d
    decreases |s|
  {
    if s != [] {
      var t := s[..|s| - 1];
      assert s == t + [s[|s| - 1]];
      GroupMembers(t, d);
    }
  }

  lemma GroupEmpty(s: seq<Source>, d: DataId)
    requires d !in DataIds(s)
    ensures Group(s, d) == []
  {
    GroupMembers(s, d);
    if Group(s, d) != [] {
      assert Group(s, d)[0] in Group(s, d);
    }
  }

  lemma GroupNonEmpty(s: seq<Source>, d: DataId)
    requires d in DataIds(s)
    ensures |Group(s, d)| > 0
  {
    var x :| x in s && x.data == d;
    GroupMembers(s, d);
    assert x in Group(s, d);
  }

  lemma GroupAppend(s: seq<Source>, x: Source, d: DataId)
    ensures Group(s + [x], d) == Group(s, d) + (if x.data == d then [x] else [])
  {
    assert (s + [x])[..|s|] == s;
  }

  lemma DataIdsAppend(s: seq<Source>, x: Source)
    ensures DataIds(s + [x]) == DataIds(s) + {x.data}
  {
    assert forall y :: y in s + [x] <==> y in s || y == x;
  }

  /** The largest `vertexCount * dataStride` of a group, or 0. */
  function MaxSize(g: seq<Source>): (r: int)
    ensures r >= 0
    ensures forall x :: x in g ==> r >= x.vertexCount * x.dataStride
    ensures r == 0 || exists x :: x in g && r == x.vertexCount * x.dataStride
  {
    if g == [] then 0
    else
      var x := g[|g| - 1];
      var m := MaxSize(g[..|g| - 1]);
      assert g == g[..|g| - 1] + [x];
      if m >= x.vertexCount * x.dataStride then m else x.vertexCount * x.dataStride
  }

  /** One attribute per source of a group, in the group's order. */
  function Attributes(g: seq<Source>, attributeIndex: int -> int): (r: seq<Attribute>)
    requires AllFormatsValid(g)
    ensures |r| == |g|
    ensures forall i :: 0 <= i < |g| ==>
      r[i] == Attribute(attributeIndex(g[i].semantic), ParseVertexFormat(g[i]).value.1,
                        ParseVertexFormat(g[i]).value.0, g[i].dataOffset)
  {
    seq(|g|, i requires 0 <= i < |g| =>
      Attribute(attributeIndex(g[i].semantic), ParseVertexFormat(g[i]).value.1,
                ParseVertexFormat(g[i]).value.0, g[i].dataOffset))
  }

  /** The vertex descriptor for data array `d`. */
  function DescriptorFor(s: seq<Source>, d: DataId, attributeIndex: int -> int): (vd: VertexDescriptor)
    requires d in DataIds(s) && AllFormatsValid(Group(s, d))
    ensures vd.data == d && |vd.attributes| == |Group(s, d)|
  {
    GroupNonEmpty(s, d);
    var g := Group(s, d);
    VertexDescriptor(d, g[0].dataStride, MaxSize(g), Attributes(g, attributeIndex))
  }

  function DescriptorsOf(s: seq<Source>, ids: seq<DataId>, attributeIndex: int -> int): (r: seq<VertexDescriptor>)
    requires forall d :: d in ids ==> d in DataIds(s) && AllFormatsValid(Group(s, d))
    ensures |r| == |ids|
    ensures forall i :: 0 <= i < |ids| ==> r[i] == DescriptorFor(s, ids[i], attributeIndex)
  {
    seq(|ids|, i requires 0 <= i < |ids| => DescriptorFor(s, ids[i], attributeIndex))
  }

  ghost function MinOf(s: set<DataId>): (m: DataId)
    requires s != {}
    ensures m in s && forall y :: y in s ==> m <= y
  {
    var x :| x in s;
    if forall y :: y in s ==> x <= y then x
    else
      var y :| y in s && y < x;
      assert y in s - {x};
      var m := MinOf(s - {x});
      assert forall z :: z in s ==> z == x || z in s - {x};
      m
  }

  /** A set of ids in ascending order, the order std::map iterates its keys in. */
  ghost function SortedIds(s: set<DataId>): (r: seq<DataId>)
    ensures forall d :: d in r <==> d in s
    ensures forall i, j :: 0 <= i < j < |r| ==> r[i] < r[j]
    decreases s
  {
    if s == {} then []
    else
      var m := MinOf(s);
      [m] + SortedIds(s - {m})
  }

  lemma AllGroupsValid(s: seq<Source>)
    requires AllFormatsValid(s)
    ensures forall d :: d in DataIds(s) ==> AllFormatsValid(Group(s, d))
  {
    forall d | d in DataIds(s)
      ensures AllFormatsValid(Group(s, d))
    {
      GroupMembers(s, d);
    }
  }

  /** The descriptors readGeometrySources builds: one per data array, in id order. */
  ghost function DescriptorsFor(s: seq<Source>, attributeIndex: int -> int): seq<VertexDescriptor>
    requires AllFormatsValid(s)
  {
    AllGroupsValid(s);
    DescriptorsOf(s, SortedIds(DataIds(s)), attributeIndex)
  }

  /** The data arrays the descriptors read, in descriptor order. */
  function DataOf(r: seq<VertexDescriptor>): seq<DataId>
  {
    seq(|r|, i requires 0 <= i < |r| => r[i].data)
  }

  /**
   * One descriptor per distinct data array, in strictly ascending id order
   * (the order SortedIds gives), each carrying one attribute per source of
   * its group.
   */
  lemma DescriptorsShape(s: seq<Source>, attributeIndex: int -> int)
    requires AllFormatsValid(s)
    ensures DataOf(DescriptorsFor(s, attributeIndex)) == SortedIds(DataIds(s))
    ensures |DescriptorsFor(s, attributeIndex)| == |DataIds(s)|
    ensures var r := DescriptorsFor(s, attributeIndex);
      forall i :: 0 <= i < |r| ==> |r[i].attributes| == |Group(s, r[i].data)|
  {
    DescriptorIds(s, attributeIndex);
    SortedLength(DataIds(s));
  }

  /** The i-th descriptor is the one for the i-th smallest data array id. */
  lemma DescriptorIds(s: seq<Source>, attributeIndex: int -> int)
    requires AllFormatsValid(s)
    ensures var r, ids := DescriptorsFor(s, attributeIndex), SortedIds(DataIds(s));
      && |r| == |ids|
      && forall i :: 0 <= i < |r| ==> r[i].data == ids[i] && |r[i].attributes| == |Group(s, ids[i])|
  {
    AllGroupsValid(s);
  }

  lemma {:induction false} SortedLength(s: set<DataId>)
    ensures |SortedIds(s)| == |s|
    decreases s
  {
    if s != {} {
      SortedLength(s - {MinOf(s)});
    }
  }

  // ---- every source lands in exactly one group ----

  /** The groups of `ids`, concatenated in order. */
  function Concat(s: seq<Source>, ids: seq<DataId>): seq<Source>
  {
    if ids == [] then [] else Group(s, ids[0]) + Concat(s, ids[1..])
  }

  /** The sources whose data array is in `ids`, in order. */
  function Only(s: seq<Source>, ids: set<DataId>): seq<Source>
  {
    if s == [] then [] else Only(s[..|s| - 1], ids) + (if s[|s| - 1].data in ids then [s[|s| - 1]] else [])
  }

  predicate NoDup(ids: seq<DataId>)
  {
    forall i, j :: 0 <= i < j < |ids| ==> ids[i] != ids[j]
  }

  lemma {:induction false} ConcatAppend(s: seq<Source>, x: Source, ids: seq<DataId>)
    requires NoDup(ids)
    ensures multiset(Concat(s + [x], ids)) == multiset(Concat(s, ids)) + (if x.data in ids then multiset{x} else multiset{})
    decreases |ids|
  {
    if ids == [] {
      assert Concat(s + [x], ids) == [] == Concat(s, ids);
    } else {
      var k := ids[0];
      var rest := ids[1..];
      assert NoDup(rest);
      GroupAppend(s, x, k);
      ConcatAppend(s, x, rest);
      var extra: multiset<Source> := if x.data == k then multiset{x} else multiset{};
      var extraRest: multiset<Source> := if x.data in rest then multiset{x} else multiset{};
      assert multiset(Group(s + [x], k)) == multiset(Group(s, k)) + extra;
      ConcatStep(s + [x], ids);
      ConcatStep(s, ids);
      ExtraSplit(x, ids);
      Shuffle(multiset(Group(s, k)), multiset(Concat(s, rest)), extra, extraRest);
    }
  }

  lemma ConcatStep(s: seq<Source>, ids: seq<DataId>)
    requires ids != []
    ensures multiset(Concat(s, ids)) == multiset(Group(s, ids[0])) + multiset(Concat(s, ids[1..]))
  {
  }

  /** With no repeated id, `x` is counted by the head id or by the rest, never both. */
  lemma ExtraSplit(x: Source, ids: seq<DataId>)
    requires NoDup(ids) && ids != []
    ensures (if x.data in ids then multiset{x} else multiset{})
      == (if x.data == ids[0] then multiset{x} else multiset{}) + (if x.data in ids[1..] then multiset{x} else multiset{})
  {
    if x.data == ids[0] {
      forall j | 0 <= j < |ids[1..]|
        ensures ids[1..][j] != x.data
      {
        assert ids[1..][j] == ids[j + 1];
      }
    } else {
      assert x.data in ids <==> x.data in ids[1..] by {
        assert ids == [ids[0]] + ids[1..];
      }
    }
  }

  lemma Shuffle<T>(a: multiset<T>, b: multiset<T>, c: multiset<T>, d: multiset<T>)
    ensures (a + c) + (b + d) == (a + b) + (c + d)
  {
  }

  lemma {:induction false} ConcatIsOnly(s: seq<Source>, ids: seq<DataId>)
    requires NoDup(ids)
    ensures multiset(Concat(s, ids)) == multiset(Only(s, set d | d in ids))
    decreases |s|
  {
    if s == [] {
      ConcatEmpty(ids);
    } else {
      var t := s[..|s| - 1];
      var x := s[|s| - 1];
      assert s == t + [x];
      ConcatIsOnly(t, ids);
      ConcatAppend(t, x, ids);
    }
  }

  lemma {:induction false} ConcatEmpty(ids: seq<DataId>)
    ensures Concat([], ids) == []
    decreases |ids|
  {
    if ids != [] {
      ConcatEmpty(ids[1..]);
    }
  }

  lemma {:induction false} OnlyAll(s: seq<Source>, ids: set<DataId>)
    requires DataIds(s) <= ids
    ensures Only(s, ids) == s
    decreases |s|
  {
    if s != [] {
      var t := s[..|s| - 1];
      assert s == t + [s[|s| - 1]];
      DataIdsAppend(t, s[|s| - 1]);
      OnlyAll(t, ids);
    }
  }

  /**
   * The groups, taken in the order their descriptors are built, hold every
   * source exactly once.
   */
  lemma GroupsPartition(s: seq<Source>)
    ensures var ids := SortedIds(DataIds(s)); multiset(Concat(s, ids)) == multiset(s)
  {
    var ids := SortedIds(DataIds(s));
    ConcatIsOnly(s, ids);
    var keys := set d | d in ids;
    assert keys == DataIds(s);
    OnlyAll(s, keys);
    assert Only(s, keys) == s;
  }

  /** The sources read for a geometry: its own, then a skinner's bone indices and weights. */
  function WithSkin(sources: seq<Source>, skinner: Option<(Source, Source)>): seq<Source>
  {
    if skinner.Some? then sources + [skinner.value.0, skinner.value.1] else sources
  }

  lemma EmptyAppend<T>(x: seq<T>)
    ensures [] + x == x
  {
  }

  class Substrate {
    var elements: seq<ElementGL>
    var vertexDescriptors: seq<VertexDescriptor>
    /** A skinned geometry owns a bone UBO. */
    var hasBoneUBO: bool

    /**
     * Reads the elements, then the sources (with the skinner's bone indices
     * and weights appended). `indicesCount` and `attributeIndex` are the
     * geometry utilities that count a primitive's indices and map a semantic
     * to its attribute slot.
     */
    constructor(es: seq<Element>, sources: seq<Source>, skinner: Option<(Source, Source)>,
                indicesCount: (nat, PrimitiveType) -> int, attributeIndex: int -> int)
      requires SharedStride(WithSkin(sources, skinner)) && AllFormatsValid(WithSkin(sources, skinner))
      ensures elements == ElementsFor(es, indicesCount)
      ensures vertexDescriptors == DescriptorsFor(WithSkin(sources, skinner), attributeIndex)
      ensures hasBoneUBO == skinner.Some?
    {
      elements := [];
      vertexDescriptors := [];
      hasBoneUBO := skinner.Some?;
      new;
      ReadGeometryElements(es, indicesCount);
      EmptyAppend(ElementsFor(es, indicesCount));
      var aborted := ReadGeometrySources(WithSkin(sources, skinner), attributeIndex);
      EmptyAppend(DescriptorsFor(WithSkin(sources, skinner), attributeIndex));
    }

    /** One GL element per geometry element, appended in order. */
    method ReadGeometryElements(es: seq<Element>, indicesCount: (nat, PrimitiveType) -> int)
      modifies this
      ensures elements == old(elements) + ElementsFor(es, indicesCount)
      ensures vertexDescriptors == old(vertexDescriptors) && hasBoneUBO == old(hasBoneUBO)
    {
      var i := 0;
      while i < |es|
        invariant 0 <= i <= |es|
        invariant elements == old(elements) + ElementsFor(es[..i], indicesCount)
        invariant vertexDescriptors == old(vertexDescriptors) && hasBoneUBO == old(hasBoneUBO)
      {
        var e := es[i];
        var indexCount := indicesCount(e.primitiveCount, e.primitiveType);
        elements := elements + [ElementGL(ParsePrimitiveType(e.primitiveType), indexCount,
                                          if e.bytesPerIndex == 2 then GL_UNSIGNED_SHORT else GL_UNSIGNED_INT, 0)];
        assert es[..i + 1][..i] == es[..i];
        i := i + 1;
      }
      assert es[..i] == es;
    }

    /**
     * Groups the sources by data array and appends one descriptor per group,
     * in data-array order; aborts on a source with an unsupported component size.
     */
    method ReadGeometrySources(sources: seq<Source>, attributeIndex: int -> int) returns (aborted: bool)
      requires SharedStride(sources)
      modifies this
      ensures aborted <==> !AllFormatsValid(sources)
      ensures !aborted ==> vertexDescriptors == old(vertexDescriptors) + DescriptorsFor(sources, attributeIndex)
      ensures elements == old(elements) && hasBoneUBO == old(hasBoneUBO)
    {
      var vds := BuildDescriptors(sources, attributeIndex);
      if vds.None? {
        return true;
      }
      vertexDescriptors := vertexDescriptors + vds.value;
      return false;
    }
  }

  /** One descriptor per data array, visiting the arrays in id order; None when a source's format aborts. */
  method BuildDescriptors(sources: seq<Source>, attributeIndex: int -> int) returns (vds: Option<seq<VertexDescriptor>>)
    ensures vds.Some? <==> AllFormatsValid(sources)
    ensures vds.Some? ==> vds.value == DescriptorsFor(sources, attributeIndex)
  {
    var dataMap := GroupSources(sources);
    var remaining := dataMap.Keys;
    var built: seq<VertexDescriptor> := [];
    ghost var done: seq<DataId> := [];
    EmptyAppend(SortedIds(remaining));
    while remaining != {}
      invariant BuildInv(sources, remaining, done, built, attributeIndex)
      decreases remaining
    {
      var d := SmallestKey(remaining);
      var vd := BuildDescriptor(sources, d, dataMap[d], attributeIndex);
      if vd.None? {
        return None;
      }
      BuildStep(sources, remaining, done, built, attributeIndex, d);
      built := built + [vd.value];
      done := done + [d];
      remaining := remaining - {d};
    }
    BuildDone(sources, done, built, attributeIndex);
    return Some(built);
  }

  /**
   * The loop of BuildDescriptors: the ids visited so far, followed by the
   * remaining ones in order, are the sorted ids, and `built` holds the
   * descriptors of the visited ones.
   */
  ghost predicate BuildInv(sources: seq<Source>, remaining: set<DataId>, done: seq<DataId>,
                           built: seq<VertexDescriptor>, attributeIndex: int -> int)
  {
    && remaining <= DataIds(sources)
    && SortedIds(DataIds(sources)) == done + SortedIds(remaining)
    && (forall d :: d in done ==> d in DataIds(sources) && AllFormatsValid(Group(sources, d)))
    && built == DescriptorsOf(sources, done, attributeIndex)
  }

  lemma BuildStep(sources: seq<Source>, remaining: set<DataId>, done: seq<DataId>,
                  built: seq<VertexDescriptor>, attributeIndex: int -> int, d: DataId)
    requires BuildInv(sources, remaining, done, built, attributeIndex)
    requires remaining != {} && d == MinOf(remaining) && AllFormatsValid(Group(sources, d))
    ensures BuildInv(sources, remaining - {d}, done + [d], built + [DescriptorFor(sources, d, attributeIndex)], attributeIndex)
  {
    SortedAdvance(DataIds(sources), done, remaining, d);
    DescriptorsOfAppend(sources, done, d, attributeIndex, built);
  }

  lemma BuildDone(sources: seq<Source>, done: seq<DataId>, built: seq<VertexDescriptor>, attributeIndex: int -> int)
    requires BuildInv(sources, {}, done, built, attributeIndex)
    ensures AllFormatsValid(sources) && built == DescriptorsFor(sources, attributeIndex)
  {
    assert SortedIds({}) == [];
    assert done == SortedIds(DataIds(sources));
    AllSourcesValid(sources, done);
  }

  /** Taking the smallest remaining id keeps `done` a prefix of the sorted ids. */
  lemma SortedAdvance(keys: set<DataId>, done: seq<DataId>, remaining: set<DataId>, d: DataId)
    requires remaining != {} && d == MinOf(remaining)
    requires SortedIds(keys) == done + SortedIds(remaining)
    ensures SortedIds(keys) == (done + [d]) + SortedIds(remaining - {d})
  {
    SortedUnfold(remaining);
    Reassociate(done, [d], SortedIds(remaining - {d}));
  }

  lemma SortedUnfold(s: set<DataId>)
    requires s != {}
    ensures SortedIds(s) == [MinOf(s)] + SortedIds(s - {MinOf(s)})
  {
  }

  lemma Reassociate<T>(a: seq<T>, b: seq<T>, c: seq<T>)
    ensures a + (b + c) == (a + b) + c
  {
  }

  lemma DescriptorsOfAppend(s: seq<Source>, ids: seq<DataId>, d: DataId, attributeIndex: int -> int,
                             built: seq<VertexDescriptor>)
    requires forall k :: k in ids ==> k in DataIds(s) && AllFormatsValid(Group(s, k))
    requires d in DataIds(s) && AllFormatsValid(Group(s, d))
    requires built == DescriptorsOf(s, ids, attributeIndex)
    ensures built + [DescriptorFor(s, d, attributeIndex)] == DescriptorsOf(s, ids + [d], attributeIndex)
  {
  }

  /** When every data array's group is valid, every source is. */
  lemma AllSourcesValid(s: seq<Source>, ids: seq<DataId>)
    requires forall d :: d in DataIds(s) ==> d in ids
    requires forall d :: d in ids ==> AllFormatsValid(Group(s, d))
    ensures AllFormatsValid(s)
  {
    forall x | x in s
      ensures ParseVertexFormat(x).Some?
    {
      GroupMembers(s, x.data);
      assert x.data in DataIds(s);
      assert x in Group(s, x.data);
    }
  }

  /**
   * The descriptor for data array `d` built from its group: the first source's
   * stride, the group's buffer size and one attribute per source; None when a
   * source's format aborts.
   */
  method BuildDescriptor(sources: seq<Source>, d: DataId, group: seq<Source>, attributeIndex: int -> int)
    returns (vd: Option<VertexDescriptor>)
    requires d in DataIds(sources) && group == Group(sources, d)
    ensures vd.Some? <==> AllFormatsValid(group)
    ensures vd.Some? ==> vd.value == DescriptorFor(sources, d, attributeIndex)
    ensures vd.None? ==> !AllFormatsValid(sources)
  {
    GroupNonEmpty(sources, d);
    var dataSize := BufferSize(group);
    var attributes := GroupAttributes(group, attributeIndex);
    if attributes.None? {
      GroupMembers(sources, d);
      return None;
    }
    return Some(VertexDescriptor(d, group[0].dataStride, dataSize, attributes.value));
  }

  /** The map from data array to the sources reading it, each group in source order. */
  method GroupSources(sources: seq<Source>) returns (dataMap: map<DataId, seq<Source>>)
    ensures dataMap.Keys == DataIds(sources)
    ensures forall d :: d in dataMap ==> dataMap[d] == Group(sources, d)
  {
    dataMap := map[];
    var i := 0;
    while i < |sources|
      invariant 0 <= i <= |sources|
      invariant dataMap.Keys == DataIds(sources[..i])
      invariant forall d :: d in dataMap ==> dataMap[d] == Group(sources[..i], d)
    {
      var x := sources[i];
      assert sources[..i + 1] == sources[..i] + [x];
      DataIdsAppend(sources[..i], x);
      forall d {
        GroupAppend(sources[..i], x, d);
      }
      if x.data !in dataMap {
        GroupEmpty(sources[..i], x.data);
        dataMap := dataMap[x.data := [x]];
      } else {
        dataMap := dataMap[x.data := dataMap[x.data] + [x]];
      }
      i := i + 1;
    }
    assert sources[..i] == sources;
  }

  /** The smallest id of a non-empty set: the next key std::map visits. */
  method SmallestKey(s: set<DataId>) returns (m: DataId)
    requires s != {}
    ensures m == MinOf(s)
  {
    m :| m in s;
    var rest := s - {m};
    while rest != {}
      invariant rest <= s && m in s
      invariant forall y :: y in s && y !in rest ==> m <= y
      decreases rest
    {
      var y :| y in rest;
      if y < m {
        m := y;
      }
      rest := rest - {y};
    }
    var least := MinOf(s);
    assert m <= least && least <= m;
  }

  /** The buffer size of a group: its largest vertexCount * dataStride. */
  method BufferSize(group: seq<Source>) returns (dataSize: int)
    ensures dataSize == MaxSize(group)
  {
    dataSize := 0;
    var j := 0;
    while j < |group|
      invariant 0 <= j <= |group|
      invariant dataSize == MaxSize(group[..j])
    {
      var size := group[j].vertexCount * group[j].dataStride;
      assert group[..j + 1][..j] == group[..j];
      dataSize := if dataSize >= size then dataSize else size;
      j := j + 1;
    }
    assert group[..j] == group;
  }

  /** The group's attributes, or None when a source's format aborts. */
  method GroupAttributes(group: seq<Source>, attributeIndex: int -> int) returns (r: Option<seq<Attribute>>)
    ensures r.Some? <==> AllFormatsValid(group)
    ensures r.Some? ==> r.value == Attributes(group, attributeIndex)
  {
    var attributes: seq<Attribute> := [];
    var j := 0;
    while j < |group|
      invariant 0 <= j <= |group|
      invariant AllFormatsValid(group[..j])
      invariant attributes == Attributes(group[..j], attributeIndex)
    {
      var format := ParseVertexFormat(group[j]);
      if format.None? {
        return None;
      }
      assert group[..j + 1] == group[..j] + [group[j]];
      attributes := attributes + [Attribute(attributeIndex(group[j].semantic), format.value.1, format.value.0, group[j].dataOffset)];
      j := j + 1;
    }
    assert group[..j] == group;
    return Some(attributes);
  }
}
