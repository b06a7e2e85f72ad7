/** Code-point coverage of an OpenType `cmap` table (VROCharmapCoverage.cpp).
    A coverage vector is a flat sequence [s0, e0, s1, e1, ...] of half-open
    ranges [s, e); the subtable parsers append to it with AddRange. */
module CharmapCoverage {

  import opened Wrappers

  const U32MAX: nat := 0xFFFF_FFFF
  // Defined in VROFontUtil.h, which is not part of this model; it is the last
  // Unicode code point.
  const MAX_UNICODE_CODE_POINT: nat := 0x10_FFFF
  const kLowestPriority: nat := 255

  // ---------------------------------------------------------------------------
  // Big-endian reads

  function ReadU16(data: seq<Byte>, offset: nat): (v: nat)
    requires offset + 2 <= |data|
    ensures v < 0x1_0000
    ensures v / 0x100 == data[offset] && v % 0x100 == data[offset + 1]
  {
    (data[offset] as int) * 0x100 + data[offset + 1]
  }

  function ReadU24(data: seq<Byte>, offset: nat): (v: nat)
    requires offset + 3 <= |data|
    ensures v < 0x100_0000
    ensures v / 0x1_0000 == data[offset]
    ensures v % 0x1_0000 == ReadU16(data, offset + 1)
  {
    (data[offset] as int) * 0x1_0000 + (data[offset + 1] as int) * 0x100 + data[offset + 2]
  }

  function ReadU32(data: seq<Byte>, offset: nat): (v: nat)
    requires offset + 4 <= |data|
    ensures v <= U32MAX
    ensures v / 0x1_0000 == ReadU16(data, offset)
    ensures v % 0x1_0000 == ReadU16(data, offset + 2)
  {
    (data[offset] as int) * 0x100_0000 + (data[offset + 1] as int) * 0x1_0000 + (data[offset + 2] as int) * 0x100 + data[offset + 3]
  }

  // ---------------------------------------------------------------------------
  // Range vectors

  /** x lies in one of the half-open ranges of the flat range vector r. */
  predicate Covers(r: seq<nat>, x: nat)
    decreases |r|
  {
    |r| >= 2 && ((r[0] <= x < r[1]) || Covers(r[2..], x))
  }

  /** Every range is non-empty and the ranges are sorted and separated: the
      vectors AddRange builds from non-empty ranges have this shape. */
  predicate StrictlyIncreasing(r: seq<nat>)
  {
    forall i, j :: 0 <= i < j < |r| ==> r[i] < r[j]
  }

  predicate WellFormed(r: seq<nat>)
  {
    |r| % 2 == 0 && StrictlyIncreasing(r)
  }

  /** The exclusive end of the last range; 0 for an empty vector, so that
      AddRange accepts a start exactly when it is at least this value. */
  function LastEnd(r: seq<nat>): nat
  {
    if r == [] then 0 else r[|r| - 1]
  }

  lemma {:induction false} CoversAppend(r: seq<nat>, s: nat, e: nat, x: nat)
    requires |r| % 2 == 0
    ensures Covers(r + [s, e], x) <==> Covers(r, x) || s <= x < e
    decreases |r|
  {
    if |r| > 0 {
      assert (r + [s, e])[2..] == r[2..] + [s, e];
      CoversAppend(r[2..], s, e, x);
    } else {
      assert (r + [s, e])[2..] == [];
    }
  }

  lemma {:induction false} CoversExtendLast(r: seq<nat>, e: nat, x: nat)
    requires WellFormed(r) && |r| >= 2 && r[|r| - 1] <= e
    ensures Covers(r[..|r| - 1] + [e], x) <==> Covers(r, x) || r[|r| - 1] <= x < e
    decreases |r|
  {
    var n := |r|;
    if n == 2 {
      assert r[..n - 1] + [e] == [r[0], e];
      assert [r[0], e][2..] == [];
      assert r[2..] == [];
    } else {
      assert (r[..n - 1] + [e])[2..] == r[2..][..n - 3] + [e];
      assert r[..n - 1] + [e] == [r[0], r[1]] + (r[2..][..n - 3] + [e]);
      CoversExtendLast(r[2..], e, x);
    }
  }

  lemma {:induction false} CoversDrop(r: seq<nat>, i: nat, x: nat)
    requires |r| % 2 == 0 && i % 2 == 0 && i + 2 <= |r|
    ensures Covers(r[i..], x) <==> (r[i] <= x < r[i + 1]) || Covers(r[i + 2..], x)
  {
    assert r[i..][2..] == r[i + 2..];
  }

  /** Appends [start, end) to the coverage vector, joining it to the last
      range when it starts where that range ends; out-of-order input is
      refused and leaves the vector unchanged. */
  method AddRange(coverage: seq<nat>, start: nat, end: nat) returns (ok: bool, result: seq<nat>)
    ensures ok <==> (coverage == [] || coverage[|coverage| - 1] <= start)
    ensures ok <==> LastEnd(coverage) <= start
    ensures !ok ==> result == coverage
    ensures ok && (coverage == [] || coverage[|coverage| - 1] < start) ==> result == coverage + [start, end]
    ensures ok && coverage != [] && coverage[|coverage| - 1] == start ==>
              result == coverage[..|coverage| - 1] + [end]
    ensures ok && WellFormed(coverage) && start < end ==>
              WellFormed(result) && result[|result| - 1] == end && LastEnd(result) == end &&
              forall x: nat :: Covers(result, x) <==> Covers(coverage, x) || start <= x < end
  {
    if coverage == [] || coverage[|coverage| - 1] < start {
      ok, result := true, coverage + [start, end];
      if |coverage| % 2 == 0 {
        forall x: nat ensures Covers(result, x) <==> Covers(coverage, x) || start <= x < end {
          CoversAppend(coverage, start, end, x);
        }
      }
    } else if coverage[|coverage| - 1] == start {
      ok, result := true, coverage[..|coverage| - 1] + [end];
      if WellFormed(coverage) && start < end {
        forall x: nat ensures Covers(result, x) <==> Covers(coverage, x) || start <= x < end {
          CoversExtendLast(coverage, end, x);
        }
      }
    } else {
      ok, result := false, coverage;
    }
  }

  datatype Range = Range(start: nat, end: nat)
  {
    static function InvalidRange(): (r: Range)
      ensures !r.IsValid()
    {
      Range(U32MAX, U32MAX)
    }

    predicate IsValid()
    {
      start != U32MAX && end != U32MAX
    }

    predicate Contains(x: nat)
    {
      start <= x < end
    }

    static predicate Intersects(left: Range, right: Range)
    {
      left.IsValid() && right.IsValid() && left.start < right.end && right.start < left.end
    }

    /** The merged range of two intersecting ranges holds exactly the points of both. */
    static function Merge(left: Range, right: Range): (r: Range)
      requires Intersects(left, right)
      ensures forall x :: r.Contains(x) <==> left.Contains(x) || right.Contains(x)
    {
      Range(if left.start <= right.start then left.start else right.start,
            if left.end >= right.end then left.end else right.end)
    }
  }

  /** Two valid ranges intersect exactly when they share a point. */
  lemma IntersectsIffCommonPoint(left: Range, right: Range)
    requires left.IsValid() && right.IsValid()
    requires left.start < left.end && right.start < right.end
    ensures Range.Intersects(left, right) <==> exists x :: left.Contains(x) && right.Contains(x)
  {
    if Range.Intersects(left, right) {
      var w := if left.start <= right.start then right.start else left.start;
      assert left.Contains(w) && right.Contains(w);
    }
  }

  /** The range at flat index i, or the invalid range past the end of the vector. */
  function GetRange(r: seq<nat>, i: nat): (g: Range)
    requires forall k :: 0 <= k < |r| ==> r[k] < U32MAX
    ensures g.IsValid() <==> i + 1 < |r|
    ensures g.IsValid() ==> g.start == r[i] && g.end == r[i + 1]
  {
    if i + 1 < |r| then Range(r[i], r[i + 1]) else Range.InvalidRange()
  }

  predicate BelowMax(r: seq<nat>)
  {
    forall k :: 0 <= k < |r| ==> r[k] < U32MAX
  }

  /** Everything still to be emitted starts at or after the last emitted end. */
  predicate AfterLast(out: seq<nat>, r: seq<nat>, i: nat)
  {
    out != [] && i < |r| ==> out[|out| - 1] <= r[i]
  }

  /** Merges two sorted range vectors into one sorted vector covering the union. */
  method MergeRanges(lRanges: seq<nat>, rRanges: seq<nat>) returns (out: seq<nat>)
    requires WellFormed(lRanges) && WellFormed(rRanges)
    requires BelowMax(lRanges) && BelowMax(rRanges)
    ensures WellFormed(out)
    ensures forall x :: Covers(out, x) <==> Covers(lRanges, x) || Covers(rRanges, x)
  {
    out := [];
    var lsize, rsize := |lRanges|, |rRanges|;
    var li, ri := 0, 0;
    while li < lsize || ri < rsize
      invariant li % 2 == 0 && ri % 2 == 0 && li <= lsize && ri <= rsize
      invariant WellFormed(out) && BelowMax(out)
      invariant AfterLast(out, lRanges, li) && AfterLast(out, rRanges, ri)
      invariant forall x :: Covers(lRanges, x) || Covers(rRanges, x) <==>
                  Covers(out, x) || Covers(lRanges[li..], x) || Covers(rRanges[ri..], x)
      decreases lsize - li + rsize - ri
    {
      var left := GetRange(lRanges, li);
      var right := GetRange(rRanges, ri);
      if !right.IsValid() {
        out := AppendRest(out, lRanges, li);
        li := lsize;
        ri := rsize;
        break;
      } else if !left.IsValid() {
        out := AppendRest(out, rRanges, ri);
        li := lsize;
        ri := rsize;
        break;
      } else if !Range.Intersects(left, right) {
        if left.start < right.start {
          out := Emit(out, left, lRanges, li, rRanges, ri);
          li := li + 2;
        } else {
          out := Emit(out, right, rRanges, ri, lRanges, li);
          ri := ri + 2;
        }
      } else {
        out, li, ri := EmitMerged(out, lRanges, li, rRanges, ri);
      }
    }
  }

  /** One step of MergeRanges: emits the range at index i of `mine`, which
      lies wholly before the next range of `other`. */
  method Emit(out: seq<nat>, g: Range, mine: seq<nat>, i: nat, other: seq<nat>, j: nat)
    returns (out': seq<nat>)
    requires WellFormed(mine) && WellFormed(other) && BelowMax(mine) && BelowMax(other)
    requires i % 2 == 0 && j % 2 == 0 && i + 2 <= |mine| && j + 2 <= |other|
    requires g == Range(mine[i], mine[i + 1])
    requires other[j] >= mine[i + 1]
    requires WellFormed(out) && BelowMax(out) && AfterLast(out, mine, i) && AfterLast(out, other, j)
    ensures WellFormed(out') && BelowMax(out')
    ensures AfterLast(out', mine, i + 2) && AfterLast(out', other, j)
    ensures forall x :: Covers(out', x) || Covers(mine[i + 2..], x) <==>
              Covers(out, x) || Covers(mine[i..], x)
  {
    var ok;
    ok, out' := AddRange(out, g.start, g.end);
    forall x: nat ensures Covers(out', x) || Covers(mine[i + 2..], x) <==> Covers(out, x) || Covers(mine[i..], x) {
      CoversDrop(mine, i, x);
    }
  }

  /** Appends every remaining range of r from index i onwards. */
  method AppendRest(out: seq<nat>, r: seq<nat>, i: nat) returns (out': seq<nat>)
    requires WellFormed(r) && BelowMax(r) && i % 2 == 0 && i < |r|
    requires WellFormed(out) && BelowMax(out) && AfterLast(out, r, i)
    ensures WellFormed(out') && BelowMax(out')
    ensures forall x :: Covers(out', x) <==> Covers(out, x) || Covers(r[i..], x)
  {
    out' := out;
    var k := i;
    while k < |r|
      invariant i <= k <= |r| && k % 2 == 0
      invariant WellFormed(out') && BelowMax(out') && AfterLast(out', r, k)
      invariant forall x :: Covers(out, x) || Covers(r[i..], x) <==> Covers(out', x) || Covers(r[k..], x)
      decreases |r| - k
    {
      var g := GetRange(r, k);
      var ok;
      ghost var before := out';
      ok, out' := AddRange(out', g.start, g.end);
      forall x: nat ensures Covers(before, x) || Covers(r[k..], x) <==> Covers(out', x) || Covers(r[k + 2..], x) {
        CoversDrop(r, k, x);
      }
      k := k + 2;
    }
    assert r[k..] == [];
  }

  /** Drops the range at index i of r into the covered set of a merged range. */
  lemma AbsorbRange(merged: Range, g: Range, r: seq<nat>, i: nat)
    requires WellFormed(r) && i % 2 == 0 && i + 2 <= |r| && g == Range(r[i], r[i + 1])
    requires Range.Intersects(merged, g)
    ensures forall x: nat :: Range.Merge(merged, g).Contains(x) || Covers(r[i + 2..], x) <==>
              merged.Contains(x) || Covers(r[i..], x)
  {
    forall x: nat ensures Covers(r[i..], x) <==> g.Contains(x) || Covers(r[i + 2..], x) {
      CoversDrop(r, i, x);
    }
  }

  /** The intersecting branch of MergeRanges: starting from two intersecting
      ranges, grows the merged range while it meets the next range of either
      vector, then emits it. */
  method EmitMerged(out: seq<nat>, l: seq<nat>, li: nat, r: seq<nat>, ri: nat)
    returns (out': seq<nat>, li': nat, ri': nat)
    requires WellFormed(l) && WellFormed(r) && BelowMax(l) && BelowMax(r)
    requires li % 2 == 0 && ri % 2 == 0 && li + 2 <= |l| && ri + 2 <= |r|
    requires Range.Intersects(Range(l[li], l[li + 1]), Range(r[ri], r[ri + 1]))
    requires WellFormed(out) && BelowMax(out) && AfterLast(out, l, li) && AfterLast(out, r, ri)
    ensures li' % 2 == 0 && ri' % 2 == 0 && li + 2 <= li' <= |l| && ri + 2 <= ri' <= |r|
    ensures WellFormed(out') && BelowMax(out') && AfterLast(out', l, li') && AfterLast(out', r, ri')
    ensures forall x: nat :: Covers(out', x) || Covers(l[li'..], x) || Covers(r[ri'..], x) <==>
              Covers(out, x) || Covers(l[li..], x) || Covers(r[ri..], x)
  {
    var merged := Range.Merge(Range(l[li], l[li + 1]), Range(r[ri], r[ri + 1]));
    forall x: nat ensures Covers(l[li..], x) <==> Range(l[li], l[li + 1]).Contains(x) || Covers(l[li + 2..], x)
    {
      CoversDrop(l, li, x);
    }
    forall x: nat ensures Covers(r[ri..], x) <==> Range(r[ri], r[ri + 1]).Contains(x) || Covers(r[ri + 2..], x)
    {
      CoversDrop(r, ri, x);
    }
    merged, li', ri' := GrowMerged(merged, l, li + 2, r, ri + 2);
    var ok;
    ok, out' := AddRange(out, merged.start, merged.end);
  }

  /** The inner loop of the intersecting branch: absorbs following ranges of
      either vector while they meet the merged range. */
  method GrowMerged(merged: Range, l: seq<nat>, li: nat, r: seq<nat>, ri: nat)
    returns (merged': Range, li': nat, ri': nat)
    requires WellFormed(l) && WellFormed(r) && BelowMax(l) && BelowMax(r)
    requires li % 2 == 0 && ri % 2 == 0 && li <= |l| && ri <= |r|
    requires merged.start < merged.end < U32MAX
    requires li < |l| ==> merged.start < l[li]
    requires ri < |r| ==> merged.start < r[ri]
    ensures li' % 2 == 0 && ri' % 2 == 0 && li <= li' <= |l| && ri <= ri' <= |r|
    ensures merged'.start == merged.start && merged.end <= merged'.end < U32MAX
    ensures li' < |l| ==> merged'.end <= l[li']
    ensures ri' < |r| ==> merged'.end <= r[ri']
    ensures forall x: nat :: merged'.Contains(x) || Covers(l[li'..], x) || Covers(r[ri'..], x) <==>
              merged.Contains(x) || Covers(l[li..], x) || Covers(r[ri..], x)
  {
    merged', li', ri' := merged, li, ri;
    var left := GetRange(l, li');
    var right := GetRange(r, ri');
    while Range.Intersects(merged', left) || Range.Intersects(merged', right)
      invariant li' % 2 == 0 && ri' % 2 == 0 && li <= li' <= |l| && ri <= ri' <= |r|
      invariant left == GetRange(l, li') && right == GetRange(r, ri')
      invariant merged'.start == merged.start && merged.end <= merged'.end < U32MAX
      invariant li' < |l| ==> merged.start < l[li']
      invariant ri' < |r| ==> merged.start < r[ri']
      invariant forall x: nat :: merged'.Contains(x) || Covers(l[li'..], x) || Covers(r[ri'..], x) <==>
                  merged.Contains(x) || Covers(l[li..], x) || Covers(r[ri..], x)
      decreases |l| - li' + |r| - ri'
    {
      if Range.Intersects(merged', left) {
        merged', li' := AbsorbNext(merged', l, li');
        left := GetRange(l, li');
      } else {
        merged', ri' := AbsorbNext(merged', r, ri');
        right := GetRange(r, ri');
      }
    }
  }

  /** One step of the inner loop: merges the range at index i of v, which
      meets the merged range, and moves past it. */
  method AbsorbNext(merged: Range, v: seq<nat>, i: nat) returns (merged': Range, i': nat)
    requires WellFormed(v) && BelowMax(v) && i % 2 == 0
    requires merged.start < merged.end < U32MAX
    requires i < |v| ==> merged.start < v[i]
    requires Range.Intersects(merged, GetRange(v, i))
    ensures i' == i + 2 && i' <= |v|
    ensures merged'.start == merged.start && merged.end <= merged'.end < U32MAX
    ensures i' < |v| ==> merged.start < v[i']
    ensures forall x: nat :: merged'.Contains(x) || Covers(v[i'..], x) <==>
              merged.Contains(x) || Covers(v[i..], x)
  {
    var g := GetRange(v, i);
    AbsorbRange(merged, g, v, i);
    merged' := Range.Merge(merged, g);
    i' := i + 2;
  }

  /** Every value of a coverage vector stays at or below `bound`. */
  predicate Bounded(r: seq<nat>, bound: nat)
  {
    forall k :: 0 <= k < |r| ==> r[k] <= bound
  }

  // ---------------------------------------------------------------------------
  // Format 4: segment mapping to delta values

  const kFormat4HeaderSize: nat := 16

  function SegCount(data: seq<Byte>): nat
    requires |data| >= 14
  {
    ReadU16(data, 6) / 2
  }

  /** The header and the four segment arrays lie inside the subtable. */
  predicate Format4Fits(data: seq<Byte>)
  {
    |data| >= 14 && kFormat4HeaderSize + 8 * SegCount(data) <= |data|
  }

  function SegEnd(data: seq<Byte>, i: nat): nat
    requires Format4Fits(data) && i < SegCount(data)
  {
    ReadU16(data, 14 + 2 * i)
  }

  function SegStart(data: seq<Byte>, i: nat): nat
    requires Format4Fits(data) && i < SegCount(data)
  {
    ReadU16(data, kFormat4HeaderSize + 2 * (SegCount(data) + i))
  }

  function SegDelta(data: seq<Byte>, i: nat): nat
    requires Format4Fits(data) && i < SegCount(data)
  {
    ReadU16(data, kFormat4HeaderSize + 2 * (2 * SegCount(data) + i))
  }

  function SegRangeOffset(data: seq<Byte>, i: nat): nat
    requires Format4Fits(data) && i < SegCount(data)
  {
    ReadU16(data, kFormat4HeaderSize + 2 * (3 * SegCount(data) + i))
  }

  /** Where the glyph id of code point j of segment i is read on the
      glyphIdArray path. */
  function GlyphAddress(data: seq<Byte>, i: nat, j: nat): nat
    requires Format4Fits(data) && i < SegCount(data) && SegStart(data, i) <= j
  {
    kFormat4HeaderSize + 6 * SegCount(data) + SegRangeOffset(data, i) + (i + j - SegStart(data, i)) * 2
  }

  /** Code point j of segment i maps to a glyph other than 0: by the delta when
      the range offset is 0, otherwise by a glyphIdArray entry that lies
      inside the subtable. */
  predicate SegmentMaps(data: seq<Byte>, i: nat, j: nat)
    requires Format4Fits(data) && i < SegCount(data)
  {
    SegStart(data, i) <= j <= SegEnd(data, i) &&
    if SegRangeOffset(data, i) == 0 then
      (j + SegDelta(data, i)) % 0x1_0000 != 0
    else
      GlyphAddress(data, i, j) + 2 <= |data| && ReadU16(data, GlyphAddress(data, i, j)) != 0
  }

  /** Code point x is mapped by one of the first n segments. */
  predicate InSegments(data: seq<Byte>, n: nat, x: nat)
    requires Format4Fits(data) && n <= SegCount(data)
  {
    n > 0 && (InSegments(data, n - 1, x) || SegmentMaps(data, n - 1, x))
  }

  /** When the delta moves the segment's last code point past the segment's
      length, no code point of the segment lands on glyph 0. */
  lemma {:induction false} DeltaShortcut(start: nat, end: nat, delta: nat, j: nat)
    requires start <= j <= end && (end + delta) % 0x1_0000 > end - start
    ensures (j + delta) % 0x1_0000 != 0
  {
    var m := (end + delta) % 0x1_0000;
    var q := (end + delta) / 0x1_0000;
    assert end + delta == q * 0x1_0000 + m;
    assert j + delta == q * 0x1_0000 + (m - (end - j));
    assert 0 < m - (end - j) < 0x1_0000;
  }

  /** The segment loop of getCoverageFormat4 for one segment whose start is not
      above its end: adds the code points it maps, one range per run. */
  method AddSegmentFormat4(coverage: seq<nat>, data: seq<Byte>, i: nat) returns (ok: bool, coverage': seq<nat>)
    requires Format4Fits(data) && i < SegCount(data) && SegStart(data, i) <= SegEnd(data, i)
    requires WellFormed(coverage) && Bounded(coverage, 0x1_0000)
    ensures ok ==> WellFormed(coverage') && Bounded(coverage', 0x1_0000)
    ensures ok ==> forall x: nat :: Covers(coverage', x) <==> Covers(coverage, x) || SegmentMaps(data, i, x)
    ensures ok <==> forall y: nat :: SegmentMaps(data, i, y) ==> LastEnd(coverage) <= y
    ensures ok ==> LastEnd(coverage) <= LastEnd(coverage') && forall y: nat :: SegmentMaps(data, i, y) ==> y < LastEnd(coverage')
    ensures ok ==> (LastEnd(coverage') == LastEnd(coverage) ||
                    (LastEnd(coverage') > 0 && SegmentMaps(data, i, LastEnd(coverage') - 1)))
  {
    var start, end := SegStart(data, i), SegEnd(data, i);
    var rangeOffset := SegRangeOffset(data, i);
    coverage' := coverage;
    if rangeOffset == 0 {
      var delta := SegDelta(data, i);
      if (end + delta) % 0x1_0000 > end - start {
        ok, coverage' := AddRange(coverage, start, end + 1);
        forall x: nat | start <= x <= end ensures SegmentMaps(data, i, x) {
          DeltaShortcut(start, end, delta, x);
        }
        assert SegmentMaps(data, i, start) && SegmentMaps(data, i, end);
        return;
      }
    }
    ok, coverage' := AddSegmentCodePoints(coverage, data, i);
  }

  /** The per-code-point loop of a segment: each code point that maps to a
      glyph is added as its own range, joined to the previous one when adjacent. */
  method AddSegmentCodePoints(coverage: seq<nat>, data: seq<Byte>, i: nat) returns (ok: bool, coverage': seq<nat>)
    requires Format4Fits(data) && i < SegCount(data) && SegStart(data, i) <= SegEnd(data, i)
    requires WellFormed(coverage) && Bounded(coverage, 0x1_0000)
    ensures ok ==> WellFormed(coverage') && Bounded(coverage', 0x1_0000)
    ensures ok ==> forall x: nat :: Covers(coverage', x) <==> Covers(coverage, x) || SegmentMaps(data, i, x)
    ensures ok <==> forall y: nat :: SegmentMaps(data, i, y) ==> LastEnd(coverage) <= y
    ensures ok ==> LastEnd(coverage) <= LastEnd(coverage') && forall y: nat :: SegmentMaps(data, i, y) ==> y < LastEnd(coverage')
    ensures ok ==> (LastEnd(coverage') == LastEnd(coverage) ||
                    (LastEnd(coverage') > 0 && SegmentMaps(data, i, LastEnd(coverage') - 1)))
  {
    var start, end := SegStart(data, i), SegEnd(data, i);
    coverage' := coverage;
    var j := start;
    while j < end + 1
      invariant start <= j <= end + 1
      invariant WellFormed(coverage') && Bounded(coverage', 0x1_0000)
      invariant CodePointsScanned(coverage, coverage', data, i, j)
    {
      ok, coverage' := AddCodePoint(coverage, coverage', data, i, j);
      if !ok {
        return;
      }
      j := j + 1;
    }
    ok := true;
  }

  /** The loop body for code point j of segment i: adds it when it maps to a
      glyph, by the delta or by a glyphIdArray entry (an out-of-bounds range
      offset is skipped, not an error). */
  method AddCodePoint(coverage: seq<nat>, coverage': seq<nat>, data: seq<Byte>, i: nat, j: nat)
    returns (ok: bool, coverage'': seq<nat>)
    requires Format4Fits(data) && i < SegCount(data) && SegStart(data, i) <= j
    requires WellFormed(coverage') && Bounded(coverage', 0x1_0000) && j < 0x1_0000
    requires CodePointsScanned(coverage, coverage', data, i, j)
    ensures ok ==> WellFormed(coverage'') && Bounded(coverage'', 0x1_0000)
    ensures ok ==> CodePointsScanned(coverage, coverage'', data, i, j + 1)
    ensures !ok <==> SegmentMaps(data, i, j) && j < LastEnd(coverage)
  {
    if SegmentMaps(data, i, j) {
      ok, coverage'' := AddRange(coverage', j, j + 1);
      if ok {
        CodePointAdded(coverage, coverage', coverage'', data, i, j);
      }
    } else {
      ok, coverage'' := true, coverage';
      CodePointSkipped(coverage, coverage', data, i, j);
    }
  }

  /** The per-code-point loop has looked at the code points of segment i below
      j: the vector covers those that map, it ends just past the last of them
      (or where it ended before), and each of them was at or above that old end. */
  ghost predicate CodePointsScanned(coverage: seq<nat>, coverage': seq<nat>, data: seq<Byte>, i: nat, j: nat)
    requires Format4Fits(data) && i < SegCount(data)
  {
    (forall x: nat :: Covers(coverage', x) <==> Covers(coverage, x) || (SegmentMaps(data, i, x) && x < j)) &&
    LastEnd(coverage) <= LastEnd(coverage') &&
    (forall y: nat :: SegmentMaps(data, i, y) && y < j ==> LastEnd(coverage) <= y < LastEnd(coverage')) &&
    (LastEnd(coverage') == LastEnd(coverage) ||
     (0 < LastEnd(coverage') <= j && SegmentMaps(data, i, LastEnd(coverage') - 1)))
  }

  /** A mapped code point accepted by AddRange: the vector now ends just past it. */
  lemma CodePointAdded(coverage: seq<nat>, before: seq<nat>, after: seq<nat>, data: seq<Byte>, i: nat, j: nat)
    requires Format4Fits(data) && i < SegCount(data) && SegmentMaps(data, i, j)
    requires CodePointsScanned(coverage, before, data, i, j)
    requires LastEnd(before) <= j && LastEnd(after) == j + 1
    requires forall x: nat :: Covers(after, x) <==> Covers(before, x) || j <= x < j + 1
    ensures CodePointsScanned(coverage, after, data, i, j + 1)
  {
  }

  /** A code point that maps to no glyph leaves the vector as it is. */
  lemma CodePointSkipped(coverage: seq<nat>, coverage': seq<nat>, data: seq<Byte>, i: nat, j: nat)
    requires Format4Fits(data) && i < SegCount(data) && !SegmentMaps(data, i, j)
    requires CodePointsScanned(coverage, coverage', data, i, j)
    ensures CodePointsScanned(coverage, coverage', data, i, j + 1)
  {
  }

  /** No segment starts above its end. */
  predicate SegmentsValid(data: seq<Byte>)
    requires Format4Fits(data)
  {
    forall i :: 0 <= i < SegCount(data) ==> SegStart(data, i) <= SegEnd(data, i)
  }

  /** Each code point one of the first n segments maps lies at or above floor
      and above every code point of the segments before it: the order in
      which AddRange accepts them. */
  ghost predicate SegmentsAscend(data: seq<Byte>, floor: nat, n: nat)
    requires Format4Fits(data) && n <= SegCount(data)
  {
    forall k: nat, y: nat :: k < n && SegmentMaps(data, k, y) ==>
      floor <= y && forall x: nat :: InSegments(data, k, x) ==> x < y
  }

  /** A Format 4 subtable that getCoverageFormat4 reads to the end. */
  ghost predicate Format4Parses(data: seq<Byte>)
  {
    Format4Fits(data) && SegmentsValid(data) && SegmentsAscend(data, 0, SegCount(data))
  }

  /** Coverage of a Format 4 subtable, appended to `coverage`. */
  method GetCoverageFormat4(coverage: seq<nat>, data: seq<Byte>) returns (ok: bool, coverage': seq<nat>)
    requires WellFormed(coverage) && Bounded(coverage, 0x1_0000)
    ensures |data| < 14 ==> !ok
    ensures |data| >= 14 && kFormat4HeaderSize + 8 * SegCount(data) > |data| ==> !ok
    ensures ok ==> Format4Fits(data) && WellFormed(coverage') && Bounded(coverage', 0x1_0000)
    ensures ok ==> forall x: nat :: Covers(coverage', x) <==> Covers(coverage, x) || InSegments(data, SegCount(data), x)
    ensures Format4Fits(data) && (exists i :: 0 <= i < SegCount(data) && SegEnd(data, i) < SegStart(data, i)) ==> !ok
    ensures ok <==> Format4Fits(data) && SegmentsValid(data) && SegmentsAscend(data, LastEnd(coverage), SegCount(data))
  {
    coverage' := coverage;
    if 14 > |data| {
      return false, coverage';
    }
    var segCount := ReadU16(data, 6) / 2;
    if kFormat4HeaderSize + segCount * 8 > |data| {
      return false, coverage';
    }
    var i := 0;
    while i < segCount
      invariant 0 <= i <= segCount
      invariant WellFormed(coverage') && Bounded(coverage', 0x1_0000)
      invariant SegmentsScanned(coverage, coverage', data, i)
    {
      var end := ReadU16(data, 14 + 2 * i);
      var start := ReadU16(data, kFormat4HeaderSize + 2 * (segCount + i));
      if end < start {
        // invalid segment range
        assert SegEnd(data, i) < SegStart(data, i);
        return false, coverage';
      }
      ghost var before := coverage';
      var added;
      added, coverage' := AddSegmentFormat4(coverage', data, i);
      if !added {
        SegmentRefused(coverage, before, data, i);
        return false, coverage';
      }
      SegmentAdded(coverage, before, coverage', data, i);
      i := i + 1;
    }
    ok := true;
  }

  /** The segment loop has read the first i segments: the vector covers what
      they map, it ends just past the largest of those code points (or where
      it ended before), and the segments so far are valid and ascending. */
  ghost predicate SegmentsScanned(coverage: seq<nat>, coverage': seq<nat>, data: seq<Byte>, i: nat)
    requires Format4Fits(data) && i <= SegCount(data)
  {
    (forall x: nat :: Covers(coverage', x) <==> Covers(coverage, x) || InSegments(data, i, x)) &&
    LastEnd(coverage) <= LastEnd(coverage') &&
    (forall x: nat :: InSegments(data, i, x) ==> x < LastEnd(coverage')) &&
    (LastEnd(coverage') == LastEnd(coverage) ||
     (LastEnd(coverage') > 0 && InSegments(data, i, LastEnd(coverage') - 1))) &&
    (forall k :: 0 <= k < i ==> SegStart(data, k) <= SegEnd(data, k)) &&
    SegmentsAscend(data, LastEnd(coverage), i)
  }

  /** Segment i accepted by AddSegmentFormat4: one segment more is read. */
  lemma SegmentAdded(coverage: seq<nat>, before: seq<nat>, after: seq<nat>, data: seq<Byte>, i: nat)
    requires Format4Fits(data) && i < SegCount(data) && SegStart(data, i) <= SegEnd(data, i)
    requires SegmentsScanned(coverage, before, data, i)
    requires forall x: nat :: Covers(after, x) <==> Covers(before, x) || SegmentMaps(data, i, x)
    requires forall y: nat :: SegmentMaps(data, i, y) ==> LastEnd(before) <= y
    requires LastEnd(before) <= LastEnd(after) && forall y: nat :: SegmentMaps(data, i, y) ==> y < LastEnd(after)
    requires LastEnd(after) == LastEnd(before) || (LastEnd(after) > 0 && SegmentMaps(data, i, LastEnd(after) - 1))
    ensures SegmentsScanned(coverage, after, data, i + 1)
  {
    var n := i + 1;
    assert forall x: nat :: InSegments(data, n, x) <==> InSegments(data, i, x) || SegmentMaps(data, i, x);
    if LastEnd(after) == LastEnd(before) && LastEnd(before) != LastEnd(coverage) {
      assert InSegments(data, n, LastEnd(after) - 1);
    }
    forall k: nat, y: nat | k < i + 1 && SegmentMaps(data, k, y)
      ensures LastEnd(coverage) <= y && forall x: nat :: InSegments(data, k, x) ==> x < y
    {
      if k == i {
        forall x: nat | InSegments(data, k, x) ensures x < y {
          assert x < LastEnd(before);
        }
      }
    }
    assert forall x: nat :: Covers(after, x) <==> Covers(coverage, x) || InSegments(data, n, x);
    assert forall x: nat :: InSegments(data, n, x) ==> x < LastEnd(after);
    assert LastEnd(after) == LastEnd(coverage) ||
           (LastEnd(after) > 0 && InSegments(data, n, LastEnd(after) - 1));
    assert forall k :: 0 <= k < n ==> SegStart(data, k) <= SegEnd(data, k);
    assert SegmentsAscend(data, LastEnd(coverage), n);
  }

  /** Segment i refused by AddSegmentFormat4: a code point it maps is not
      above the code points before it, so the subtable does not ascend. */
  lemma SegmentRefused(coverage: seq<nat>, before: seq<nat>, data: seq<Byte>, i: nat)
    requires Format4Fits(data) && i < SegCount(data)
    requires SegmentsScanned(coverage, before, data, i)
    requires !forall y: nat :: SegmentMaps(data, i, y) ==> LastEnd(before) <= y
    ensures !SegmentsAscend(data, LastEnd(coverage), SegCount(data))
  {
    var y: nat :| SegmentMaps(data, i, y) && y < LastEnd(before);
    if LastEnd(before) != LastEnd(coverage) {
      assert InSegments(data, i, LastEnd(before) - 1);
    }
  }

  // ---------------------------------------------------------------------------
  // Format 12: segmented coverage

  const kMaxNGroups: nat := 0xffff_fff0 / 12

  function NGroups(data: seq<Byte>): nat
    requires |data| >= 16
  {
    ReadU32(data, 12)
  }

  predicate Format12Fits(data: seq<Byte>)
  {
    |data| >= 16 && NGroups(data) < kMaxNGroups && 16 + 12 * NGroups(data) <= |data|
  }

  function GroupStart(data: seq<Byte>, i: nat): nat
    requires Format12Fits(data) && i < NGroups(data)
  {
    ReadU32(data, 16 + 12 * i)
  }

  /** Inclusive last code point of group i, as stored in the file. */
  function GroupEnd(data: seq<Byte>, i: nat): nat
    requires Format12Fits(data) && i < NGroups(data)
  {
    ReadU32(data, 16 + 12 * i + 4)
  }

  /** x is covered by group i or a later one. Reading stops at the first
      group that starts past the last Unicode code point, and the first group
      that ends past it is clamped to it and ends the table. */
  predicate InGroups(data: seq<Byte>, i: nat, x: nat)
    requires Format12Fits(data)
    decreases NGroups(data) - i
  {
    if i >= NGroups(data) then false
    else
      var s, e := GroupStart(data, i), GroupEnd(data, i);
      if e < s || s > MAX_UNICODE_CODE_POINT then false
      else if e > MAX_UNICODE_CODE_POINT then s <= x <= MAX_UNICODE_CODE_POINT
      else (s <= x <= e) || InGroups(data, i + 1, x)
  }

  /** Format 12 coverage never reaches past the last Unicode code point. */
  lemma {:induction false} InGroupsBelowMax(data: seq<Byte>, i: nat, x: nat)
    requires Format12Fits(data) && InGroups(data, i, x)
    ensures x <= MAX_UNICODE_CODE_POINT
    decreases NGroups(data) - i
  {
    var s, e := GroupStart(data, i), GroupEnd(data, i);
    if e <= MAX_UNICODE_CODE_POINT && !(s <= x <= e) {
      InGroupsBelowMax(data, i + 1, x);
    }
  }

  /** Groups before i are well-formed and end within Unicode: the loop reaches group i. */
  predicate GroupsReach(data: seq<Byte>, i: nat)
    requires Format12Fits(data) && i <= NGroups(data)
  {
    forall k :: 0 <= k < i ==> GroupStart(data, k) <= GroupEnd(data, k) <= MAX_UNICODE_CODE_POINT
  }

  /** From group i on, the groups the scan reaches are well-formed and each
      starts at or after floor and after the end of the group before it, the
      order in which AddRange accepts them. The scan stops at a group that
      starts past the last Unicode code point or ends past it. */
  predicate GroupsAscend(data: seq<Byte>, i: nat, floor: nat)
    requires Format12Fits(data)
    decreases NGroups(data) - i
  {
    if i >= NGroups(data) then true
    else
      var s, e := GroupStart(data, i), GroupEnd(data, i);
      if e < s then false
      else if s > MAX_UNICODE_CODE_POINT then true
      else floor <= s && (e > MAX_UNICODE_CODE_POINT || GroupsAscend(data, i + 1, e + 1))
  }

  /** A Format 12 subtable that getCoverageFormat12 reads to the end. */
  predicate Format12Parses(data: seq<Byte>)
  {
    Format12Fits(data) && GroupsAscend(data, 0, 0)
  }

  /** Coverage of a Format 12 subtable, appended to `coverage`; inclusive
      group ends become exclusive range ends. */
  method GetCoverageFormat12(coverage: seq<nat>, data: seq<Byte>) returns (ok: bool, coverage': seq<nat>)
    requires WellFormed(coverage) && Bounded(coverage, MAX_UNICODE_CODE_POINT + 1)
    ensures |data| < 16 ==> !ok
    ensures |data| >= 16 && (NGroups(data) >= kMaxNGroups || 16 + 12 * NGroups(data) > |data|) ==> !ok
    ensures ok ==> Format12Fits(data) && WellFormed(coverage') && Bounded(coverage', MAX_UNICODE_CODE_POINT + 1)
    ensures ok ==> forall x: nat :: Covers(coverage', x) <==> Covers(coverage, x) || InGroups(data, 0, x)
    ensures Format12Fits(data) ==>
              forall i :: 0 <= i < NGroups(data) && GroupsReach(data, i) && GroupEnd(data, i) < GroupStart(data, i) ==> !ok
    ensures ok <==> Format12Fits(data) && GroupsAscend(data, 0, LastEnd(coverage))
  {
    coverage' := coverage;
    if 16 > |data| {
      return false, coverage';
    }
    var nGroups := ReadU32(data, 12);
    if nGroups >= kMaxNGroups || 16 + nGroups * 12 > |data| {
      return false, coverage';
    }
    var i := 0;
    while i < nGroups
      invariant 0 <= i <= nGroups
      invariant WellFormed(coverage') && Bounded(coverage', MAX_UNICODE_CODE_POINT + 1)
      invariant GroupsReach(data, i)
      invariant CoveredSoFar(coverage, coverage', data, i)
      invariant GroupsAscend(data, 0, LastEnd(coverage)) <==> GroupsAscend(data, i, LastEnd(coverage'))
    {
      var groupOffset := 16 + i * 12;
      assert groupOffset == 16 + 12 * i;
      var start := ReadU32(data, groupOffset);
      var end := ReadU32(data, groupOffset + 4);
      assert start == GroupStart(data, i) && end == GroupEnd(data, i);
      GroupsAscendUnfold(data, i, LastEnd(coverage'));
      if end < start {
        // invalid group range
        return false, coverage';
      }
      if start > MAX_UNICODE_CODE_POINT {
        // no need to read outside the Unicode code point range
        GroupSkipped(coverage, coverage', data, i);
        ScanStopped(data, i);
        return true, coverage';
      }
      ghost var before := coverage';
      if end > MAX_UNICODE_CODE_POINT {
        ok, coverage' := AddRange(coverage', start, MAX_UNICODE_CODE_POINT + 1);
        if ok {
          GroupAdded(coverage, before, coverage', data, i, MAX_UNICODE_CODE_POINT + 1);
          ScanStopped(data, i);
        }
        return;
      }
      var added;
      added, coverage' := AddRange(coverage', start, end + 1);
      if !added {
        return false, coverage';
      }
      GroupAdded(coverage, before, coverage', data, i, end + 1);
      i := i + 1;
    }
    ok := true;
  }

  /** One step of GroupsAscend, for a group the scan reaches. */
  lemma GroupsAscendUnfold(data: seq<Byte>, i: nat, floor: nat)
    requires Format12Fits(data) && i < NGroups(data)
    ensures var s, e := GroupStart(data, i), GroupEnd(data, i);
      GroupsAscend(data, i, floor) <==>
        s <= e && (s > MAX_UNICODE_CODE_POINT || (floor <= s && (e > MAX_UNICODE_CODE_POINT || GroupsAscend(data, i + 1, e + 1))))
  {
  }

  /** After the first i groups, the coverage so far plus the groups from i
      on cover what the original coverage and all the groups do. */
  ghost predicate CoveredSoFar(coverage: seq<nat>, coverage': seq<nat>, data: seq<Byte>, i: nat)
    requires Format12Fits(data)
  {
    forall x: nat :: Covers(coverage', x) || InGroups(data, i, x) <==> Covers(coverage, x) || InGroups(data, 0, x)
  }

  /** A well-formed group ending past the last code point ends the scan:
      no group the scan reaches is malformed. */
  lemma ScanStopped(data: seq<Byte>, i: nat)
    requires Format12Fits(data) && i < NGroups(data) && GroupsReach(data, i)
    requires GroupStart(data, i) <= GroupEnd(data, i) && GroupEnd(data, i) > MAX_UNICODE_CODE_POINT
    ensures forall j :: 0 <= j < NGroups(data) && GroupsReach(data, j) ==> GroupStart(data, j) <= GroupEnd(data, j)
  {
  }

  /** A group starting past the last code point ends the scan: nothing further is covered. */
  lemma GroupSkipped(coverage: seq<nat>, coverage': seq<nat>, data: seq<Byte>, i: nat)
    requires Format12Fits(data) && i < NGroups(data) && GroupStart(data, i) > MAX_UNICODE_CODE_POINT
    requires CoveredSoFar(coverage, coverage', data, i)
    ensures forall x: nat :: Covers(coverage', x) <==> Covers(coverage, x) || InGroups(data, 0, x)
  {
    assert forall x: nat :: !InGroups(data, i, x);
  }

  /** A group added as the range from its start to its end (clipped to the
      last code point): the scan moves on to the next group, or, when the
      group was clipped, is complete. */
  lemma GroupAdded(coverage: seq<nat>, before: seq<nat>, after: seq<nat>, data: seq<Byte>, i: nat, hi: nat)
    requires Format12Fits(data) && i < NGroups(data)
    requires GroupStart(data, i) <= GroupEnd(data, i) && GroupStart(data, i) <= MAX_UNICODE_CODE_POINT
    requires GroupsReach(data, i) && CoveredSoFar(coverage, before, data, i)
    requires GroupEnd(data, i) > MAX_UNICODE_CODE_POINT ==> hi == MAX_UNICODE_CODE_POINT + 1
    requires GroupEnd(data, i) <= MAX_UNICODE_CODE_POINT ==> hi == GroupEnd(data, i) + 1
    requires forall x: nat :: Covers(after, x) <==> Covers(before, x) || GroupStart(data, i) <= x < hi
    ensures GroupEnd(data, i) <= MAX_UNICODE_CODE_POINT ==>
              GroupsReach(data, i + 1) && CoveredSoFar(coverage, after, data, i + 1)
    ensures GroupEnd(data, i) > MAX_UNICODE_CODE_POINT ==>
              forall x: nat :: Covers(after, x) <==> Covers(coverage, x) || InGroups(data, 0, x)
  {
  }

  /** Format 12 never adds a code point past the last Unicode code point. */
  lemma Format12BelowMax(coverage: seq<nat>, coverage': seq<nat>, data: seq<Byte>, x: nat)
    requires Format12Fits(data)
    requires forall y: nat :: Covers(coverage', y) <==> Covers(coverage, y) || InGroups(data, 0, y)
    requires Covers(coverage', x) && !Covers(coverage, x)
    ensures x <= MAX_UNICODE_CODE_POINT
  {
    InGroupsBelowMax(data, 0, x);
  }

  // ---------------------------------------------------------------------------
  // Format 14: Unicode variation sequences

  const kVSBound: nat := 0x100_0100

  function NumUVSRecords(table: seq<Byte>): nat
    requires |table| >= 4
  {
    ReadU32(table, 0)
  }

  /** x is the code point of one of the first n records of a non-default UVS table. */
  predicate InUVSMappings(table: seq<Byte>, n: nat, x: nat)
    requires 4 + 5 * n <= |table|
  {
    n > 0 && (InUVSMappings(table, n - 1, x) || ReadU24(table, 4 + 5 * (n - 1)) == x)
  }

  /** x lies in one of the first n ranges of a default UVS table and the base
      coverage has it. */
  predicate InDefaultUVS(table: seq<Byte>, base: seq<nat>, n: nat, x: nat)
    requires 4 + 4 * n <= |table|
  {
    n > 0 && (InDefaultUVS(table, base, n - 1, x) || InDefaultRecord(table, base, n - 1, x))
  }

  /** x lies in [startCp, startCp + additionalCount] of record i of a default
      UVS table and the base coverage has it. */
  predicate InDefaultRecord(table: seq<Byte>, base: seq<nat>, i: nat, x: nat)
    requires 4 + 4 * (i + 1) <= |table|
  {
    ReadU24(table, 4 + 4 * i) <= x <= ReadU24(table, 4 + 4 * i) + table[4 + 4 * i + 3] && Covers(base, x)
  }

  predicate NonDefaultTableFits(table: seq<Byte>)
  {
    |table| >= 4 && NumUVSRecords(table) * 5 + 4 <= |table|
  }

  predicate DefaultTableFits(table: seq<Byte>)
  {
    |table| >= 4 && NumUVSRecords(table) * 4 + 4 <= |table|
  }

  /** Code points listed by the non-default UVS table at `offset` (0: no table). */
  predicate NonDefaultUVSCovers(data: seq<Byte>, offset: nat, x: nat)
    requires offset <= |data|
  {
    offset != 0 && NonDefaultTableFits(data[offset..]) &&
    InUVSMappings(data[offset..], NumUVSRecords(data[offset..]), x)
  }

  /** Code points of the default UVS table at `offset` (0: no table) that the base covers. */
  predicate DefaultUVSCovers(data: seq<Byte>, offset: nat, base: seq<nat>, x: nat)
    requires offset <= |data|
  {
    offset != 0 && DefaultTableFits(data[offset..]) &&
    InDefaultUVS(data[offset..], base, NumUVSRecords(data[offset..]), x)
  }

  /** The code point of record k of a non-default UVS table. */
  function UVSCodePoint(table: seq<Byte>, k: nat): nat
    requires NonDefaultTableFits(table) && k < NumUVSRecords(table)
  {
    ReadU24(table, 4 + 5 * k)
  }

  /** The first n records of a non-default UVS table list strictly ascending
      code points, the order in which AddRange accepts them. */
  predicate UVSMappingsAscend(table: seq<Byte>, n: nat)
    requires NonDefaultTableFits(table) && n <= NumUVSRecords(table)
  {
    forall k :: 0 < k < n ==> UVSCodePoint(table, k - 1) < UVSCodePoint(table, k)
  }

  /** The code points of a non-default UVS table, as a range vector. */
  method NonDefaultUVSRanges(table: seq<Byte>) returns (ok: bool, ranges: seq<nat>)
    ensures !NonDefaultTableFits(table) ==> !ok
    ensures ok ==> NonDefaultTableFits(table) && WellFormed(ranges) && Bounded(ranges, kVSBound)
    ensures ok ==> forall x: nat :: Covers(ranges, x) <==> InUVSMappings(table, NumUVSRecords(table), x)
    ensures ok <==> NonDefaultTableFits(table) && UVSMappingsAscend(table, NumUVSRecords(table))
  {
    ranges := [];
    if |table| < 4 {
      return false, ranges;
    }
    var numRecords := ReadU32(table, 0);
    if numRecords * 5 + 4 > |table| {
      return false, ranges;
    }
    var i := 0;
    while i < numRecords
      invariant 0 <= i <= numRecords
      invariant WellFormed(ranges) && Bounded(ranges, kVSBound)
      invariant forall x: nat :: Covers(ranges, x) <==> InUVSMappings(table, i, x)
      invariant UVSMappingsAscend(table, i)
      invariant LastEnd(ranges) == if i == 0 then 0 else UVSCodePoint(table, i - 1) + 1
    {
      var codePoint := ReadU24(table, 4 + 5 * i);
      assert codePoint == UVSCodePoint(table, i);
      var added;
      added, ranges := AddRange(ranges, codePoint, codePoint + 1);
      if !added {
        return false, ranges;
      }
      i := i + 1;
    }
    ok := true;
  }

  /** One record of a default UVS table: the code points of
      [startCp, startCp + rangeLength] that the base coverage has. */
  method AddDefaultUVSRecord(ranges: seq<nat>, table: seq<Byte>, base: seq<nat>, i: nat)
    returns (ok: bool, ranges': seq<nat>)
    requires 4 + 4 * (i + 1) <= |table|
    requires WellFormed(ranges) && Bounded(ranges, kVSBound)
    ensures ok ==> WellFormed(ranges') && Bounded(ranges', kVSBound)
    ensures ok ==> forall x: nat :: Covers(ranges', x) <==> Covers(ranges, x) || InDefaultRecord(table, base, i, x)
    ensures ok <==> forall y: nat :: InDefaultRecord(table, base, i, y) ==> LastEnd(ranges) <= y
    ensures ok ==> LastEnd(ranges) <= LastEnd(ranges') && forall y: nat :: InDefaultRecord(table, base, i, y) ==> y < LastEnd(ranges')
    ensures ok ==> (LastEnd(ranges') == LastEnd(ranges) ||
                    (LastEnd(ranges') > 0 && InDefaultRecord(table, base, i, LastEnd(ranges') - 1)))
  {
    var recordOffset := 4 + 4 * i;
    var startCp := ReadU24(table, recordOffset);
    var rangeLength := table[recordOffset + 3];
    ranges' := ranges;
    var cp := startCp;
    while cp <= startCp + rangeLength
      invariant startCp <= cp <= startCp + rangeLength + 1
      invariant WellFormed(ranges') && Bounded(ranges', kVSBound)
      invariant DefaultCodePointsScanned(ranges, ranges', table, base, i, cp)
    {
      if Covers(base, cp) {
        ghost var before := ranges';
        ok, ranges' := AddRange(ranges', cp, cp + 1);
        if !ok {
          assert InDefaultRecord(table, base, i, cp) && cp < LastEnd(ranges);
          return;
        }
        DefaultCodePointAdded(ranges, before, ranges', table, base, i, cp);
      } else {
        DefaultCodePointSkipped(ranges, ranges', table, base, i, cp);
      }
      cp := cp + 1;
    }
    ok := true;
  }

  /** The loop over record i of a default UVS table has looked at the code
      points below cp: the vector covers those the record has, it ends just
      past the last of them (or where it ended before), and each of them was
      at or above that old end. */
  ghost predicate DefaultCodePointsScanned(ranges: seq<nat>, ranges': seq<nat>, table: seq<Byte>, base: seq<nat>, i: nat, cp: nat)
    requires 4 + 4 * (i + 1) <= |table|
  {
    (forall x: nat :: Covers(ranges', x) <==> Covers(ranges, x) || (InDefaultRecord(table, base, i, x) && x < cp)) &&
    LastEnd(ranges) <= LastEnd(ranges') &&
    (forall y: nat :: InDefaultRecord(table, base, i, y) && y < cp ==> LastEnd(ranges) <= y < LastEnd(ranges')) &&
    (LastEnd(ranges') == LastEnd(ranges) ||
     (0 < LastEnd(ranges') <= cp && InDefaultRecord(table, base, i, LastEnd(ranges') - 1)))
  }

  /** A code point of the record accepted by AddRange: the vector now ends just past it. */
  lemma DefaultCodePointAdded(ranges: seq<nat>, before: seq<nat>, after: seq<nat>, table: seq<Byte>, base: seq<nat>, i: nat, cp: nat)
    requires 4 + 4 * (i + 1) <= |table| && InDefaultRecord(table, base, i, cp)
    requires DefaultCodePointsScanned(ranges, before, table, base, i, cp)
    requires LastEnd(before) <= cp && LastEnd(after) == cp + 1
    requires forall x: nat :: Covers(after, x) <==> Covers(before, x) || cp <= x < cp + 1
    ensures DefaultCodePointsScanned(ranges, after, table, base, i, cp + 1)
  {
  }

  /** A code point the base coverage lacks leaves the vector as it is. */
  lemma DefaultCodePointSkipped(ranges: seq<nat>, ranges': seq<nat>, table: seq<Byte>, base: seq<nat>, i: nat, cp: nat)
    requires 4 + 4 * (i + 1) <= |table| && !InDefaultRecord(table, base, i, cp)
    requires DefaultCodePointsScanned(ranges, ranges', table, base, i, cp)
    ensures DefaultCodePointsScanned(ranges, ranges', table, base, i, cp + 1)
  {
  }

  /** The code points of a default UVS table that the base coverage has, as a range vector. */
  method DefaultUVSRanges(table: seq<Byte>, base: seq<nat>) returns (ok: bool, ranges: seq<nat>)
    ensures !DefaultTableFits(table) ==> !ok
    ensures ok ==> DefaultTableFits(table) && WellFormed(ranges) && Bounded(ranges, kVSBound)
    ensures ok ==> forall x: nat :: Covers(ranges, x) <==> InDefaultUVS(table, base, NumUVSRecords(table), x)
    ensures ok <==> DefaultTableFits(table) && DefaultRecordsAscend(table, base, NumUVSRecords(table))
  {
    ranges := [];
    if |table| < 4 {
      return false, ranges;
    }
    var numRecords := ReadU32(table, 0);
    if numRecords * 4 + 4 > |table| {
      return false, ranges;
    }
    var i := 0;
    while i < numRecords
      invariant 0 <= i <= numRecords
      invariant WellFormed(ranges) && Bounded(ranges, kVSBound)
      invariant DefaultRecordsScanned(ranges, table, base, i)
    {
      ghost var before := ranges;
      var added;
      added, ranges := AddDefaultUVSRecord(ranges, table, base, i);
      if !added {
        DefaultRecordRefused(before, table, base, i, numRecords);
        return false, ranges;
      }
      DefaultRecordAdded(before, ranges, table, base, i);
      i := i + 1;
    }
    ok := true;
  }

  /** Each code point record k of a default UVS table contributes lies above
      every code point the records before it contribute, for the first n
      records: the order in which AddRange accepts them. */
  ghost predicate DefaultRecordsAscend(table: seq<Byte>, base: seq<nat>, n: nat)
    requires 4 + 4 * n <= |table|
  {
    forall k: nat, y: nat :: k < n && InDefaultRecord(table, base, k, y) ==>
      forall x: nat :: InDefaultUVS(table, base, k, x) ==> x < y
  }

  /** The record loop has read the first i records: the vector covers what
      they contribute, it ends just past the largest of those code points, and
      the records so far ascend. */
  ghost predicate DefaultRecordsScanned(ranges: seq<nat>, table: seq<Byte>, base: seq<nat>, i: nat)
    requires 4 + 4 * i <= |table|
  {
    (forall x: nat :: Covers(ranges, x) <==> InDefaultUVS(table, base, i, x)) &&
    (forall x: nat :: InDefaultUVS(table, base, i, x) ==> x < LastEnd(ranges)) &&
    (LastEnd(ranges) == 0 || InDefaultUVS(table, base, i, LastEnd(ranges) - 1)) &&
    DefaultRecordsAscend(table, base, i)
  }

  /** Record i accepted by AddDefaultUVSRecord: one record more is read. */
  lemma DefaultRecordAdded(before: seq<nat>, after: seq<nat>, table: seq<Byte>, base: seq<nat>, i: nat)
    requires 4 + 4 * (i + 1) <= |table|
    requires DefaultRecordsScanned(before, table, base, i)
    requires forall x: nat :: Covers(after, x) <==> Covers(before, x) || InDefaultRecord(table, base, i, x)
    requires forall y: nat :: InDefaultRecord(table, base, i, y) ==> LastEnd(before) <= y
    requires LastEnd(before) <= LastEnd(after) && forall y: nat :: InDefaultRecord(table, base, i, y) ==> y < LastEnd(after)
    requires LastEnd(after) == LastEnd(before) ||
             (LastEnd(after) > 0 && InDefaultRecord(table, base, i, LastEnd(after) - 1))
    ensures DefaultRecordsScanned(after, table, base, i + 1)
  {
    var n := i + 1;
    assert forall x: nat :: InDefaultUVS(table, base, n, x) <==> InDefaultUVS(table, base, i, x) || InDefaultRecord(table, base, i, x);
    if LastEnd(after) == LastEnd(before) && LastEnd(before) != 0 {
      assert InDefaultUVS(table, base, n, LastEnd(after) - 1);
    }
    forall k: nat, y: nat | k < n && InDefaultRecord(table, base, k, y)
      ensures forall x: nat :: InDefaultUVS(table, base, k, x) ==> x < y
    {
      if k == i {
        forall x: nat | InDefaultUVS(table, base, k, x) ensures x < y {
          assert x < LastEnd(before);
        }
      }
    }
    assert forall x: nat :: Covers(after, x) <==> InDefaultUVS(table, base, n, x);
    assert forall x: nat :: InDefaultUVS(table, base, n, x) ==> x < LastEnd(after);
    assert LastEnd(after) == 0 || InDefaultUVS(table, base, n, LastEnd(after) - 1);
    assert DefaultRecordsAscend(table, base, n);
  }

  /** Record i refused by AddDefaultUVSRecord: a code point it contributes is
      not above those before it, so the table does not ascend. */
  lemma DefaultRecordRefused(before: seq<nat>, table: seq<Byte>, base: seq<nat>, i: nat, n: nat)
    requires i < n && 4 + 4 * n <= |table|
    requires DefaultRecordsScanned(before, table, base, i)
    requires !forall y: nat :: InDefaultRecord(table, base, i, y) ==> LastEnd(before) <= y
    ensures !DefaultRecordsAscend(table, base, n)
  {
    var y: nat :| InDefaultRecord(table, base, i, y) && y < LastEnd(before);
    assert InDefaultUVS(table, base, i, LastEnd(before) - 1);
  }

  lemma BoundedBelowMax(r: seq<nat>)
    requires Bounded(r, kVSBound)
    ensures BelowMax(r)
  {
  }

  /** The UVS tables at the two offsets (0: no table) are read to the end. */
  ghost predicate VSTablesParse(data: seq<Byte>, defaultOffset: nat, nonDefaultOffset: nat, base: seq<nat>)
    requires defaultOffset <= |data| && nonDefaultOffset <= |data|
  {
    (nonDefaultOffset == 0 ||
     (NonDefaultTableFits(data[nonDefaultOffset..]) &&
      UVSMappingsAscend(data[nonDefaultOffset..], NumUVSRecords(data[nonDefaultOffset..])))) &&
    (defaultOffset == 0 ||
     (DefaultTableFits(data[defaultOffset..]) &&
      DefaultRecordsAscend(data[defaultOffset..], base, NumUVSRecords(data[defaultOffset..]))))
  }

  /** Coverage of one variation selector: the code points of its non-default
      table together with those of its default table that the base coverage has. */
  method GetVSCoverage(data: seq<Byte>, defaultUVSTableOffset: nat, nonDefaultUVSTableOffset: nat, baseCoverage: seq<nat>)
    returns (ok: bool, outRanges: seq<nat>)
    requires defaultUVSTableOffset <= |data| && nonDefaultUVSTableOffset <= |data|
    ensures nonDefaultUVSTableOffset != 0 && !NonDefaultTableFits(data[nonDefaultUVSTableOffset..]) ==> !ok
    ensures defaultUVSTableOffset != 0 && !DefaultTableFits(data[defaultUVSTableOffset..]) ==> !ok
    ensures ok ==> WellFormed(outRanges)
    ensures ok ==> forall x: nat :: Covers(outRanges, x) <==>
              NonDefaultUVSCovers(data, nonDefaultUVSTableOffset, x) ||
              DefaultUVSCovers(data, defaultUVSTableOffset, baseCoverage, x)
    ensures ok <==> VSTablesParse(data, defaultUVSTableOffset, nonDefaultUVSTableOffset, baseCoverage)
  {
    outRanges := [];
    var fromNonDefault: seq<nat> := [];
    if nonDefaultUVSTableOffset != 0 {
      ok, fromNonDefault := NonDefaultUVSRanges(data[nonDefaultUVSTableOffset..]);
      if !ok {
        return;
      }
    }
    var fromDefault: seq<nat> := [];
    if defaultUVSTableOffset != 0 {
      ok, fromDefault := DefaultUVSRanges(data[defaultUVSTableOffset..], baseCoverage);
      if !ok {
        return;
      }
    }
    BoundedBelowMax(fromDefault);
    BoundedBelowMax(fromNonDefault);
    outRanges := MergeRanges(fromDefault, fromNonDefault);
    ok := true;
  }

  // ---------------------------------------------------------------------------
  // The Format 14 subtable: one record per variation selector

  const kFormat14HeaderSize: nat := 10
  const kFormat14RecordSize: nat := 11

  /** The subtable length the header declares. */
  function VSLength(data: seq<Byte>): nat
    requires |data| >= kFormat14HeaderSize
  {
    ReadU32(data, 2)
  }

  function NumVSRecords(data: seq<Byte>): nat
    requires |data| >= kFormat14HeaderSize
  {
    ReadU32(data, 6)
  }

  /** The header is readable, the declared length fits the data, and there is
      at least one record, all of them inside the declared length. */
  predicate Format14Fits(data: seq<Byte>)
  {
    |data| >= kFormat14HeaderSize && VSLength(data) <= |data| && NumVSRecords(data) > 0 &&
    kFormat14HeaderSize + kFormat14RecordSize * NumVSRecords(data) <= VSLength(data)
  }

  function VSCodePoint(data: seq<Byte>, k: nat): nat
    requires Format14Fits(data) && k < NumVSRecords(data)
  {
    ReadU24(data, kFormat14HeaderSize + kFormat14RecordSize * k)
  }

  function DefaultUVSOffset(data: seq<Byte>, k: nat): nat
    requires Format14Fits(data) && k < NumVSRecords(data)
  {
    ReadU32(data, kFormat14HeaderSize + kFormat14RecordSize * k + 3)
  }

  function NonDefaultUVSOffset(data: seq<Byte>, k: nat): nat
    requires Format14Fits(data) && k < NumVSRecords(data)
  {
    ReadU32(data, kFormat14HeaderSize + kFormat14RecordSize * k + 7)
  }

  /** Record k yields a coverage: both table offsets lie inside the declared
      length, its selector has an index, and both UVS tables are read to the
      end. `vsIndex` stands for getVsIndex of VROFontUtil, which is not part
      of this model; None is its invalid index. */
  ghost predicate RecordAccepted(data: seq<Byte>, base: seq<nat>, vsIndex: nat -> Option<nat>, k: nat)
    requires Format14Fits(data) && k < NumVSRecords(data)
  {
    var length := VSLength(data);
    DefaultUVSOffset(data, k) <= length && NonDefaultUVSOffset(data, k) <= length &&
    vsIndex(VSCodePoint(data, k)).Some? &&
    VSTablesParse(data[..length], DefaultUVSOffset(data, k), NonDefaultUVSOffset(data, k), base)
  }

  /** The code points record k covers, for a record whose offsets lie inside the declared length. */
  ghost predicate RecordCovers(data: seq<Byte>, base: seq<nat>, k: nat, x: nat)
    requires Format14Fits(data) && k < NumVSRecords(data)
    requires DefaultUVSOffset(data, k) <= VSLength(data) && NonDefaultUVSOffset(data, k) <= VSLength(data)
  {
    var table := data[..VSLength(data)];
    NonDefaultUVSCovers(table, NonDefaultUVSOffset(data, k), x) ||
    DefaultUVSCovers(table, DefaultUVSOffset(data, k), base, x)
  }

  /** What record k contributes: its selector's index and the code points it
      covers when the record is accepted, nothing otherwise. */
  ghost function RecordOutcome(data: seq<Byte>, base: seq<nat>, vsIndex: nat -> Option<nat>, k: nat): Option<(nat, iset<nat>)>
    requires Format14Fits(data) && k < NumVSRecords(data)
  {
    if RecordAccepted(data, base, vsIndex, k) then
      Some((vsIndex(VSCodePoint(data, k)).value, iset x: nat | RecordCovers(data, base, k, x)))
    else
      None
  }

  /** The outcomes of all the records, in file order. */
  ghost function Outcomes(data: seq<Byte>, base: seq<nat>, vsIndex: nat -> Option<nat>): (oc: seq<Option<(nat, iset<nat>)>>)
    requires Format14Fits(data)
    ensures |oc| == NumVSRecords(data)
  {
    seq(NumVSRecords(data), k requires 0 <= k < NumVSRecords(data) => RecordOutcome(data, base, vsIndex, k))
  }

  /** Record k is accepted with selector index v. */
  predicate IsFor(oc: seq<Option<(nat, iset<nat>)>>, k: nat, v: nat)
    requires k < |oc|
  {
    oc[k].Some? && oc[k].value.0 == v
  }

  /** Record k is the first accepted record from lo on with selector index v. */
  predicate FirstFor(oc: seq<Option<(nat, iset<nat>)>>, lo: nat, k: nat, v: nat)
  {
    lo <= k < |oc| && IsFor(oc, k, v) && forall k' :: lo <= k' < k ==> !IsFor(oc, k', v)
  }

  /** Some record from lo on is accepted with selector index v. */
  predicate HasFor(oc: seq<Option<(nat, iset<nat>)>>, lo: nat, v: nat)
  {
    exists k :: lo <= k < |oc| && IsFor(oc, k, v)
  }

  /** The per-selector coverages after the records from lo on have been read:
      every accepted record has a slot, a slot is filled exactly when some
      accepted record has its index, it holds the coverage of the first such
      record, and the vector is no longer than the largest index needs. */
  ghost predicate RecordsRead(oc: seq<Option<(nat, iset<nat>)>>, lo: nat, out: seq<Option<seq<nat>>>)
  {
    (forall k :: lo <= k < |oc| && oc[k].Some? ==> oc[k].value.0 < |out|) &&
    (forall v :: 0 <= v < |out| ==> (out[v].Some? <==> HasFor(oc, lo, v))) &&
    (forall v, k: nat :: 0 <= v < |out| && FirstFor(oc, lo, k, v) ==>
       out[v].Some? && forall x: nat :: Covers(out[v].value, x) <==> x in oc[k].value.1) &&
    (forall v :: 0 <= v < |out| && out[v].Some? ==> WellFormed(out[v].value)) &&
    (|out| > 0 ==> HasFor(oc, lo, |out| - 1))
  }

  /** What reading a Format 14 subtable yields: nothing when its header does
      not fit, otherwise the per-selector coverages of its records. */
  ghost predicate Format14Read(data: seq<Byte>, base: seq<nat>, vsIndex: nat -> Option<nat>, out: seq<Option<seq<nat>>>)
  {
    (!Format14Fits(data) ==> out == []) &&
    (Format14Fits(data) ==> RecordsRead(Outcomes(data, base, vsIndex), 0, out))
  }

  /** The variation-selector coverages of a Format 14 subtable: slot v holds
      the code points that have a variation sequence with the selector of
      index v, from the first record for that selector that can be read. */
  method GetCoverageFormat14(data: seq<Byte>, base: seq<nat>, vsIndex: nat -> Option<nat>)
    returns (out: seq<Option<seq<nat>>>)
    ensures Format14Read(data, base, vsIndex, out)
  {
    out := [];
    if |data| < kFormat14HeaderSize {
      return;
    }
    var length := ReadU32(data, 2);
    if |data| < length {
      return;
    }
    var numRecords := ReadU32(data, 6);
    if numRecords == 0 || kFormat14HeaderSize + kFormat14RecordSize * numRecords > length {
      return;
    }
    out := ReadVSRecords(data, base, vsIndex);
  }

  /** The record loop of getCoverageFormat14, over a subtable whose header fits. */
  method ReadVSRecords(data: seq<Byte>, base: seq<nat>, vsIndex: nat -> Option<nat>)
    returns (out: seq<Option<seq<nat>>>)
    requires Format14Fits(data)
    ensures RecordsRead(Outcomes(data, base, vsIndex), 0, out)
  {
    var numRecords := NumVSRecords(data);
    ghost var oc := Outcomes(data, base, vsIndex);
    out := [];
    NothingRead(oc);
    var i := 0;
    while i < numRecords
      invariant 0 <= i <= numRecords
      invariant RecordsRead(oc, numRecords - i, out)
    {
      // From the last record to the first, so that the first record for a
      // selector is the one that stays.
      out := ReadVSRecord(data, base, vsIndex, numRecords - i - 1, out, oc);
      i := i + 1;
    }
  }

  /** The loop body of getCoverageFormat14 for record r: a record whose
      offsets, selector or UVS tables cannot be used is skipped; otherwise its
      coverage goes to the slot of its selector, growing the vector to reach it. */
  method ReadVSRecord(data: seq<Byte>, base: seq<nat>, vsIndex: nat -> Option<nat>, r: nat,
                      out: seq<Option<seq<nat>>>, ghost oc: seq<Option<(nat, iset<nat>)>>)
    returns (out': seq<Option<seq<nat>>>)
    requires Format14Fits(data) && r < NumVSRecords(data) && r < |oc| && oc[r] == RecordOutcome(data, base, vsIndex, r)
    requires RecordsRead(oc, r + 1, out)
    ensures RecordsRead(oc, r, out')
  {
    var length := VSLength(data);
    var recordHeadOffset := kFormat14HeaderSize + kFormat14RecordSize * r;
    var vsCodePoint := ReadU24(data, recordHeadOffset);
    var defaultUVSOffset := ReadU32(data, recordHeadOffset + 3);
    var nonDefaultUVSOffset := ReadU32(data, recordHeadOffset + 7);
    assert oc[r] == RecordOutcome(data, base, vsIndex, r);
    if defaultUVSOffset > length || nonDefaultUVSOffset > length {
      RecordSkipped(oc, r, out);
      return out;
    }
    var index := vsIndex(vsCodePoint);
    if index.None? {
      RecordSkipped(oc, r, out);
      return out;
    }
    var ok, ranges := GetVSCoverage(data[..length], defaultUVSOffset, nonDefaultUVSOffset, base);
    if !ok {
      RecordSkipped(oc, r, out);
      return out;
    }
    var v := index.value;
    out' := out;
    if |out'| < v + 1 {
      out' := out' + seq(v + 1 - |out'|, _ => None);
    }
    out' := out'[v := Some(ranges)];
    assert forall x: nat :: Covers(ranges, x) <==> x in oc[r].value.1;
    RecordStored(oc, r, out, out', ranges);
  }

  /** Before any record is read, the vector is empty. */
  lemma NothingRead(oc: seq<Option<(nat, iset<nat>)>>)
    ensures RecordsRead(oc, |oc|, [])
  {
  }

  /** A record that is not accepted changes nothing. */
  lemma RecordSkipped(oc: seq<Option<(nat, iset<nat>)>>, r: nat, out: seq<Option<seq<nat>>>)
    requires r < |oc| && oc[r].None? && RecordsRead(oc, r + 1, out)
    ensures RecordsRead(oc, r, out)
  {
    forall v, k: nat | 0 <= v < |out| && FirstFor(oc, r, k, v) ensures FirstFor(oc, r + 1, k, v) {
    }
    forall v | 0 <= v < |out| && HasFor(oc, r, v) ensures HasFor(oc, r + 1, v) {
      var k :| r <= k < |oc| && IsFor(oc, k, v);
      assert k != r;
    }
  }

  /** An accepted record's coverage stored in the slot of its selector, the
      vector grown with empty slots when it was too short. */
  lemma RecordStored(oc: seq<Option<(nat, iset<nat>)>>, r: nat, out: seq<Option<seq<nat>>>,
                     out': seq<Option<seq<nat>>>, ranges: seq<nat>)
    requires r < |oc| && oc[r].Some? && RecordsRead(oc, r + 1, out)
    requires WellFormed(ranges) && forall x: nat :: Covers(ranges, x) <==> x in oc[r].value.1
    requires var v := oc[r].value.0;
      |out'| == (if |out| < v + 1 then v + 1 else |out|) && out'[v] == Some(ranges) &&
      (forall u :: 0 <= u < |out'| && u != v ==> out'[u] == if u < |out| then out[u] else None)
    ensures RecordsRead(oc, r, out')
  {
    var v := oc[r].value.0;
    assert IsFor(oc, r, v);
    forall u, k: nat | 0 <= u < |out'| && FirstFor(oc, r, k, u)
      ensures out'[u].Some? && forall x: nat :: Covers(out'[u].value, x) <==> x in oc[k].value.1
    {
      if u == v {
        assert k == r;
      } else {
        assert FirstFor(oc, r + 1, k, u);
      }
    }
  }

  // ---------------------------------------------------------------------------
  // The encoding-record directory

  /** HarfBuzz's order of preference among (platform, encoding) pairs. */
  const kPreferredTables: seq<(nat, nat)> := [(3, 10), (0, 6), (0, 4), (3, 1), (0, 3), (0, 2), (0, 1), (0, 0)]

  /** Lower is preferred; unsupported pairs get the lowest priority. */
  function GetTablePriority(platformId: nat, encodingId: nat): (p: nat)
    ensures p < |kPreferredTables| || p == kLowestPriority
    ensures p < |kPreferredTables| ==> kPreferredTables[p] == (platformId, encodingId)
    ensures p == kLowestPriority <==> (platformId, encodingId) !in kPreferredTables
  {
    if platformId == 3 && encodingId == 10 then 0
    else if platformId == 0 && encodingId == 6 then 1
    else if platformId == 0 && encodingId == 4 then 2
    else if platformId == 3 && encodingId == 1 then 3
    else if platformId == 0 && encodingId == 3 then 4
    else if platformId == 0 && encodingId == 2 then 5
    else if platformId == 0 && encodingId == 1 then 6
    else if platformId == 0 && encodingId == 0 then 7
    else kLowestPriority
  }

  function NumTables(cmap: seq<Byte>): nat
    requires |cmap| >= 4
  {
    ReadU16(cmap, 2)
  }

  predicate DirectoryFits(cmap: seq<Byte>)
  {
    |cmap| >= 4 && 4 + NumTables(cmap) * 8 <= |cmap|
  }

  function PlatformId(cmap: seq<Byte>, i: nat): nat
    requires DirectoryFits(cmap) && i < NumTables(cmap)
  {
    ReadU16(cmap, 4 + i * 8)
  }

  function EncodingId(cmap: seq<Byte>, i: nat): nat
    requires DirectoryFits(cmap) && i < NumTables(cmap)
  {
    ReadU16(cmap, 4 + i * 8 + 2)
  }

  function TableOffset(cmap: seq<Byte>, i: nat): nat
    requires DirectoryFits(cmap) && i < NumTables(cmap)
  {
    ReadU32(cmap, 4 + i * 8 + 4)
  }

  /** The subtable format of encoding record i, when its offset leaves room to read it. */
  function TableFormat(cmap: seq<Byte>, i: nat): nat
    requires DirectoryFits(cmap) && i < NumTables(cmap) && TableOffset(cmap, i) + 2 <= |cmap|
  {
    ReadU16(cmap, TableOffset(cmap, i))
  }

  /** Encoding record i is the variation-sequences table (0, 5) in format 14. */
  predicate IsVSTable(cmap: seq<Byte>, i: nat)
    requires DirectoryFits(cmap) && i < NumTables(cmap)
  {
    TableOffset(cmap, i) + 2 <= |cmap| &&
    PlatformId(cmap, i) == 0 && EncodingId(cmap, i) == 5 && TableFormat(cmap, i) == 14
  }

  /** Encoding record i is a usable coverage table: a supported (platform,
      encoding) pair, format 4 or 12, language 0, and a length that fits. */
  predicate IsCandidate(cmap: seq<Byte>, i: nat)
    requires DirectoryFits(cmap) && i < NumTables(cmap)
  {
    var offset := TableOffset(cmap, i);
    offset + 2 <= |cmap| &&
    !(PlatformId(cmap, i) == 0 && EncodingId(cmap, i) == 5) &&
    GetTablePriority(PlatformId(cmap, i), EncodingId(cmap, i)) < kLowestPriority &&
    ((TableFormat(cmap, i) == 4 && offset + 6 <= |cmap| &&
      ReadU16(cmap, offset + 2) <= |cmap| - offset && ReadU16(cmap, offset + 4) == 0) ||
     (TableFormat(cmap, i) == 12 && offset + 12 <= |cmap| &&
      ReadU32(cmap, offset + 4) <= |cmap| - offset && ReadU32(cmap, offset + 8) == 0))
  }

  function Priority(cmap: seq<Byte>, i: nat): nat
    requires DirectoryFits(cmap) && i < NumTables(cmap)
  {
    GetTablePriority(PlatformId(cmap, i), EncodingId(cmap, i))
  }

  /** Record b is the first candidate of smallest priority among the first n records. */
  predicate IsBestAmong(cmap: seq<Byte>, n: nat, b: nat)
    requires DirectoryFits(cmap) && n <= NumTables(cmap)
  {
    b < n && IsCandidate(cmap, b) &&
    forall k :: 0 <= k < n && IsCandidate(cmap, k) ==>
      Priority(cmap, b) < Priority(cmap, k) || (Priority(cmap, b) == Priority(cmap, k) && b <= k)
  }

  predicate NoCandidateAmong(cmap: seq<Byte>, n: nat)
    requires DirectoryFits(cmap) && n <= NumTables(cmap)
  {
    forall k :: 0 <= k < n ==> !IsCandidate(cmap, k)
  }

  /** Record v is the first variation-sequences table among the first n records. */
  predicate IsFirstVSAmong(cmap: seq<Byte>, n: nat, v: nat)
    requires DirectoryFits(cmap) && n <= NumTables(cmap)
  {
    v < n && IsVSTable(cmap, v) && forall k :: 0 <= k < v ==> !IsVSTable(cmap, k)
  }

  /** The body of the directory scan of getCoverage for encoding record i:
      whether it is a usable coverage table or the variation-sequences table. */
  method ReadEncodingRecord(cmap: seq<Byte>, i: nat) returns (candidate: bool, vsTable: bool, priority: nat)
    requires DirectoryFits(cmap) && i < NumTables(cmap)
    ensures candidate == IsCandidate(cmap, i) && vsTable == IsVSTable(cmap, i)
    ensures priority == Priority(cmap, i)
  {
    var tableHeadOffset := 4 + i * 8;
    var platformId := ReadU16(cmap, tableHeadOffset);
    var encodingId := ReadU16(cmap, tableHeadOffset + 2);
    var offset := ReadU32(cmap, tableHeadOffset + 4);
    priority := GetTablePriority(platformId, encodingId);
    candidate, vsTable := false, false;
    if offset > |cmap| - 2 {
      // not enough space to read the format
      return;
    }
    var format := ReadU16(cmap, offset);
    if platformId == 0 && encodingId == 5 {
      vsTable := format == 14;
      return;
    }
    var length, language;
    if format == 4 {
      if offset > |cmap| - 6 {
        return;
      }
      length, language := ReadU16(cmap, offset + 2), ReadU16(cmap, offset + 4);
    } else if format == 12 {
      if offset > |cmap| - 12 {
        return;
      }
      length, language := ReadU32(cmap, offset + 4), ReadU32(cmap, offset + 8);
    } else {
      return;
    }
    // A table longer than the cmap data, or with a non-zero language, is skipped.
    candidate := length <= |cmap| - offset && language == 0 && priority < kLowestPriority;
  }

  /** The directory scan of getCoverage: picks the preferred coverage table
      and the first variation-sequences table. */
  method SelectTables(cmap: seq<Byte>) returns (best: Option<nat>, vs: Option<nat>)
    requires DirectoryFits(cmap)
    ensures best.Some? ==> IsBestAmong(cmap, NumTables(cmap), best.value)
    ensures best.None? ==> NoCandidateAmong(cmap, NumTables(cmap))
    ensures vs.Some? ==> IsFirstVSAmong(cmap, NumTables(cmap), vs.value)
    ensures vs.None? ==> forall k :: 0 <= k < NumTables(cmap) ==> !IsVSTable(cmap, k)
  {
    var numTables := ReadU16(cmap, 2);
    best, vs := None, None;
    var bestTablePriority := kLowestPriority;
    var i := 0;
    while i < numTables
      invariant 0 <= i <= numTables
      invariant Scanned(cmap, i, best, bestTablePriority, vs)
    {
      var candidate, vsTable, priority := ReadEncodingRecord(cmap, i);
      ScanStep(cmap, i, best, bestTablePriority, vs);
      if vsTable && vs.None? {
        vs := Some(i);
      }
      if candidate && priority < bestTablePriority {
        best, bestTablePriority := Some(i), priority;
      }
      if vs.Some? && bestTablePriority == 0 {
        // The preferred table and the variation table are both found.
        FirstIsFinal(cmap, i + 1, best.value, vs.value);
        return;
      }
      i := i + 1;
    }
  }

  /** The state of the directory scan after the first n records. */
  predicate Scanned(cmap: seq<Byte>, n: nat, best: Option<nat>, bestPriority: nat, vs: Option<nat>)
    requires DirectoryFits(cmap) && n <= NumTables(cmap)
  {
    (best.Some? ==> IsBestAmong(cmap, n, best.value) && bestPriority == Priority(cmap, best.value)) &&
    (best.None? ==> NoCandidateAmong(cmap, n) && bestPriority == kLowestPriority) &&
    (vs.Some? ==> IsFirstVSAmong(cmap, n, vs.value)) &&
    (vs.None? ==> forall k :: 0 <= k < n ==> !IsVSTable(cmap, k))
  }

  /** One record more: a candidate that beats the best so far replaces it,
      and the first variation table is kept once found. */
  lemma ScanStep(cmap: seq<Byte>, i: nat, best: Option<nat>, bestPriority: nat, vs: Option<nat>)
    requires DirectoryFits(cmap) && i < NumTables(cmap)
    requires Scanned(cmap, i, best, bestPriority, vs)
    ensures var take := IsCandidate(cmap, i) && Priority(cmap, i) < bestPriority;
      Scanned(cmap, i + 1, if take then Some(i) else best, if take then Priority(cmap, i) else bestPriority,
              if IsVSTable(cmap, i) && vs.None? then Some(i) else vs)
  {
    BestStep(cmap, i, best, bestPriority);
  }

  /** The best-candidate half of ScanStep. */
  lemma BestStep(cmap: seq<Byte>, i: nat, best: Option<nat>, bestPriority: nat)
    requires DirectoryFits(cmap) && i < NumTables(cmap)
    requires best.Some? ==> IsBestAmong(cmap, i, best.value) && bestPriority == Priority(cmap, best.value)
    requires best.None? ==> NoCandidateAmong(cmap, i) && bestPriority == kLowestPriority
    ensures IsCandidate(cmap, i) && Priority(cmap, i) < bestPriority ==> IsBestAmong(cmap, i + 1, i)
    ensures best.Some? && !(IsCandidate(cmap, i) && Priority(cmap, i) < bestPriority) ==>
              IsBestAmong(cmap, i + 1, best.value)
    ensures best.None? && !(IsCandidate(cmap, i) && Priority(cmap, i) < bestPriority) ==> NoCandidateAmong(cmap, i + 1)
  {
  }

  /** Once a priority-0 table and a variation table are found, the later
      records change neither choice. */
  lemma FirstIsFinal(cmap: seq<Byte>, i: nat, b: nat, v: nat)
    requires DirectoryFits(cmap) && i <= NumTables(cmap)
    requires IsBestAmong(cmap, i, b) && Priority(cmap, b) == 0 && IsFirstVSAmong(cmap, i, v)
    ensures IsBestAmong(cmap, NumTables(cmap), b) && IsFirstVSAmong(cmap, NumTables(cmap), v)
  {
  }

  /** The covered set of the coverage table chosen in encoding record b. */
  predicate TableCovers(cmap: seq<Byte>, b: nat, x: nat)
    requires DirectoryFits(cmap) && b < NumTables(cmap) && IsCandidate(cmap, b)
  {
    var data := cmap[TableOffset(cmap, b)..];
    if TableFormat(cmap, b) == 4 then
      Format4Fits(data) && InSegments(data, SegCount(data), x)
    else
      Format12Fits(data) && InGroups(data, 0, x)
  }

  /** The coverage table chosen in encoding record b is read to the end by
      its format's parser. */
  ghost predicate TableParses(cmap: seq<Byte>, b: nat)
    requires DirectoryFits(cmap) && b < NumTables(cmap) && IsCandidate(cmap, b)
  {
    var data := cmap[TableOffset(cmap, b)..];
    if TableFormat(cmap, b) == 4 then Format4Parses(data) else Format12Parses(data)
  }

  /** There is at most one best candidate. */
  lemma BestIsUnique(cmap: seq<Byte>, n: nat, b: nat, b': nat)
    requires DirectoryFits(cmap) && n <= NumTables(cmap)
    requires IsBestAmong(cmap, n, b) && IsBestAmong(cmap, n, b')
    ensures b == b'
  {
  }

  /** There is at most one first variation-sequences table. */
  lemma FirstVSIsUnique(cmap: seq<Byte>, n: nat, v: nat, v': nat)
    requires DirectoryFits(cmap) && n <= NumTables(cmap)
    requires IsFirstVSAmong(cmap, n, v) && IsFirstVSAmong(cmap, n, v')
    ensures v == v'
  {
  }

  /** The coverage of the table of encoding record b: what its format's
      parser reads, or nothing when the parser refuses the table. */
  method ReadTable(cmap: seq<Byte>, b: nat) returns (coverage: seq<nat>)
    requires DirectoryFits(cmap) && b < NumTables(cmap) && IsCandidate(cmap, b)
    ensures WellFormed(coverage)
    ensures TableParses(cmap, b) ==> forall x: nat :: Covers(coverage, x) <==> TableCovers(cmap, b, x)
    ensures !TableParses(cmap, b) ==> coverage == []
  {
    coverage := [];
    var tableData := cmap[TableOffset(cmap, b)..];
    var success, coverageVec;
    if TableFormat(cmap, b) == 4 {
      success, coverageVec := GetCoverageFormat4([], tableData);
    } else {
      success, coverageVec := GetCoverageFormat12([], tableData);
    }
    if success {
      coverage := coverageVec;
    }
  }

  /** The code points the font covers: those of the preferred format 4 or 12
      table, or none when the directory is malformed, no table qualifies or the
      table cannot be read; beside them, the per-selector coverages read from
      the first variation-sequences table, with those code points as base.
      `vsIndex` stands for getVsIndex of VROFontUtil. */
  method GetCoverage(cmap: seq<Byte>, vsIndex: nat -> Option<nat>)
    returns (coverage: seq<nat>, vsCoverage: seq<Option<seq<nat>>>)
    ensures !DirectoryFits(cmap) ==> coverage == [] && vsCoverage == []
    ensures WellFormed(coverage)
    ensures coverage != [] ==>
              exists b :: IsBestAmong(cmap, NumTables(cmap), b) &&
                forall x: nat :: Covers(coverage, x) <==> TableCovers(cmap, b, x)
    ensures DirectoryFits(cmap) ==> forall b :: IsBestAmong(cmap, NumTables(cmap), b) ==>
              (TableParses(cmap, b) ==> forall x: nat :: Covers(coverage, x) <==> TableCovers(cmap, b, x)) &&
              (!TableParses(cmap, b) ==> coverage == [])
    ensures DirectoryFits(cmap) && NoCandidateAmong(cmap, NumTables(cmap)) ==> coverage == []
    ensures DirectoryFits(cmap) && (forall v :: 0 <= v < NumTables(cmap) ==> !IsVSTable(cmap, v)) ==>
              vsCoverage == []
    ensures DirectoryFits(cmap) ==> forall v :: IsFirstVSAmong(cmap, NumTables(cmap), v) ==>
              Format14Read(cmap[TableOffset(cmap, v)..], coverage, vsIndex, vsCoverage)
  {
    coverage, vsCoverage := [], [];
    if 4 > |cmap| {
      return;
    }
    var numTables := ReadU16(cmap, 2);
    if 4 + numTables * 8 > |cmap| {
      return;
    }
    var best, vs := SelectTables(cmap);
    if best.Some? {
      coverage := ReadTable(cmap, best.value);
      forall b | IsBestAmong(cmap, NumTables(cmap), b) ensures b == best.value {
        BestIsUnique(cmap, NumTables(cmap), b, best.value);
      }
    }
    if vs.Some? {
      vsCoverage := GetCoverageFormat14(cmap[TableOffset(cmap, vs.value)..], coverage, vsIndex);
      forall v | IsFirstVSAmong(cmap, NumTables(cmap), v) ensures v == vs.value {
        FirstVSIsUnique(cmap, NumTables(cmap), v, vs.value);
      }
    }
  }
}
