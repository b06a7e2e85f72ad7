/** The ARCore session (android/app/src/main/cpp/arcore/VROARSessionARCore.cpp):
    the plane-finding mode chosen from the requested anchor detection, the
    cloud-anchor gate, the anchor list and the anchor map with its two keys
    per anchor, the rotation of image-target pixels into the camera's
    orientation, the reusable buffer for rotated camera images, and the map
    key of a trackable. The ARCore session object itself, frames, poses and
    the session delegate are not part of this model. */
module ARSessionARCore {
  import opened Wrappers
  import Arithmetic
  import Decimal

  // ---------------------------------------------------------------------
  // Anchor detection
  // ---------------------------------------------------------------------

  /** VROAnchorDetection. */
  datatype AnchorDetection = PlanesHorizontal | PlanesVertical

  /** arcore::PlaneFindingMode. */
  datatype PlaneFindingMode = Disabled | Horizontal | Vertical | HorizontalAndVertical

  predicate FindsHorizontal(m: PlaneFindingMode)
  {
    m == Horizontal || m == HorizontalAndVertical
  }

  predicate FindsVertical(m: PlaneFindingMode)
  {
    m == Vertical || m == HorizontalAndVertical
  }

  /** The plane-finding mode for a set of requested detection types: it
      finds horizontal planes exactly when they are requested, and vertical
      planes exactly when they are requested. */
  function PlaneFindingFor(types: set<AnchorDetection>): (m: PlaneFindingMode)
    ensures FindsHorizontal(m) <==> PlanesHorizontal in types
    ensures FindsVertical(m) <==> PlanesVertical in types
  {
    if PlanesHorizontal in types && PlanesVertical in types then HorizontalAndVertical
    else if PlanesHorizontal in types then Horizontal
    else if PlanesVertical in types then Vertical
    else Disabled
  }

  /** A plane-finding mode is determined by which orientations it finds,
      so the two properties of PlaneFindingFor fix its result. */
  lemma PlaneFindingModeDetermined(m: PlaneFindingMode, n: PlaneFindingMode)
    requires FindsHorizontal(m) == FindsHorizontal(n) && FindsVertical(m) == FindsVertical(n)
    ensures m == n
  {
  }

  // ---------------------------------------------------------------------
  // Image rotation
  // ---------------------------------------------------------------------

  /** VROImageOrientation: how the target image is turned. */
  datatype ImageOrientation = Up | Down | Left | Right

  /** Offset of the cell at `row`, `col` in a row-major image `width` wide. */
  function Cell(width: nat, row: nat, col: nat): nat
  {
    row * width + col
  }

  /** The image turned upside down: its pixels in reverse order. */
  function Reversed(image: seq<Byte>): seq<Byte>
  {
    seq(|image|, k requires 0 <= k < |image| => image[|image| - 1 - k])
  }

  /** The input offset that the clockwise turn copies to output offset `k`
      (output row k / height, column k % height). */
  function LeftSource(width: nat, height: nat, k: nat): (s: nat)
    requires k < width * height
    ensures s < width * height
  {
    Arithmetic.RowMajorSplit(k, height, width);
    var i, j := k / height, k % height;
    Arithmetic.RowMajor(height - 1 - j, i, width, height);
    Cell(width, height - 1 - j, i)
  }

  /** The input offset that the counter-clockwise turn copies to output
      offset `k`. */
  function RightSource(width: nat, height: nat, k: nat): (s: nat)
    requires k < width * height
    ensures s < width * height
  {
    Arithmetic.RowMajorSplit(k, height, width);
    var i, j := k / height, k % height;
    Arithmetic.RowMajor(j, width - 1 - i, width, height);
    Cell(width, j, width - 1 - i)
  }

  /** A `width` x `height` image turned a quarter clockwise: `height` wide
      and `width` high. */
  function RotatedLeft(image: seq<Byte>, width: nat, height: nat): (r: seq<Byte>)
    requires |image| == width * height
    ensures |r| == |image|
  {
    seq(width * height, k requires 0 <= k < width * height => image[LeftSource(width, height, k)])
  }

  /** A `width` x `height` image turned a quarter counter-clockwise. */
  function RotatedRight(image: seq<Byte>, width: nat, height: nat): (r: seq<Byte>)
    requires |image| == width * height
    ensures |r| == |image|
  {
    seq(width * height, k requires 0 <= k < width * height => image[RightSource(width, height, k)])
  }

  lemma LeftSourceAt(width: nat, height: nat, i: nat, j: nat)
    requires i < width && j < height
    ensures Cell(height, i, j) < width * height
    ensures LeftSource(width, height, Cell(height, i, j)) == Cell(width, height - 1 - j, i)
  {
    Arithmetic.RowMajor(i, j, height, width);
  }

  lemma RightSourceAt(width: nat, height: nat, i: nat, j: nat)
    requires i < width && j < height
    ensures Cell(height, i, j) < width * height
    ensures RightSource(width, height, Cell(height, i, j)) == Cell(width, j, width - 1 - i)
  {
    Arithmetic.RowMajor(i, j, height, width);
  }

  /** The pixel the clockwise turn puts in output row `i`, column `j` is
      input row height-1-j, column `i`. */
  lemma RotatedLeftPixel(image: seq<Byte>, width: nat, height: nat, i: nat, j: nat)
    requires |image| == width * height && i < width && j < height
    ensures Cell(height, i, j) < width * height && Cell(width, height - 1 - j, i) < width * height
    ensures RotatedLeft(image, width, height)[Cell(height, i, j)] == image[Cell(width, height - 1 - j, i)]
  {
    LeftSourceAt(width, height, i, j);
  }

  /** The pixel the counter-clockwise turn puts in output row `i`, column
      `j` is input row `j`, column width-1-i. */
  lemma RotatedRightPixel(image: seq<Byte>, width: nat, height: nat, i: nat, j: nat)
    requires |image| == width * height && i < width && j < height
    ensures Cell(height, i, j) < width * height && Cell(width, j, width - 1 - i) < width * height
    ensures RotatedRight(image, width, height)[Cell(height, i, j)] == image[Cell(width, j, width - 1 - i)]
  {
    RightSourceAt(width, height, i, j);
  }

  /** Turning counter-clockwise undoes turning clockwise. */
  lemma RightUndoesLeft(image: seq<Byte>, width: nat, height: nat)
    requires |image| == width * height
    ensures |RotatedLeft(image, width, height)| == height * width
    ensures RotatedRight(RotatedLeft(image, width, height), height, width) == image
  {
    var l := RotatedLeft(image, width, height);
    assert |l| == height * width;
    var r := RotatedRight(l, height, width);
    forall k | 0 <= k < |image|
      ensures r[k] == image[k]
    {
      Arithmetic.RowMajorSplit(k, width, height);
      var a, b := k / width, k % width;
      // r's row a, column b is l's row b, column height-1-a ...
      RotatedRightPixel(l, height, width, a, b);
      // ... which is the image's row a, column b.
      RotatedLeftPixel(image, width, height, b, height - 1 - a);
    }
  }

  /** Turning clockwise undoes turning counter-clockwise. */
  lemma LeftUndoesRight(image: seq<Byte>, width: nat, height: nat)
    requires |image| == width * height
    ensures |RotatedRight(image, width, height)| == height * width
    ensures RotatedLeft(RotatedRight(image, width, height), height, width) == image
  {
    var rr := RotatedRight(image, width, height);
    assert |rr| == height * width;
    var l := RotatedLeft(rr, height, width);
    forall k | 0 <= k < |image|
      ensures l[k] == image[k]
    {
      Arithmetic.RowMajorSplit(k, width, height);
      var a, b := k / width, k % width;
      RotatedLeftPixel(rr, height, width, a, b);
      RotatedRightPixel(image, width, height, width - 1 - b, a);
    }
  }

  /** Two clockwise quarter turns are the half turn that reverses the
      pixels. */
  lemma LeftTwiceIsDown(image: seq<Byte>, width: nat, height: nat)
    requires |image| == width * height
    ensures |RotatedLeft(image, width, height)| == height * width
    ensures RotatedLeft(RotatedLeft(image, width, height), height, width) == Reversed(image)
  {
    var l := RotatedLeft(image, width, height);
    assert |l| == height * width;
    var t := RotatedLeft(l, height, width);
    forall k | 0 <= k < |image|
      ensures t[k] == Reversed(image)[k]
    {
      Arithmetic.RowMajorSplit(k, width, height);
      var a, b := k / width, k % width;
      RotatedLeftPixel(l, height, width, a, b);
      RotatedLeftPixel(image, width, height, width - 1 - b, a);
      assert Cell(width, height - 1 - a, width - 1 - b) == |image| - 1 - k by {
        assert (height - 1 - a) * width == height * width - width - a * width;
      }
    }
  }

  /** The Down case: every output row `i`, column `j` takes the input pixel
      mirrored through the centre. */
  method ReverseImage(image: array<Byte>, width: nat, height: nat) returns (rotated: array<Byte>)
    requires image.Length == width * height
    ensures fresh(rotated)
    ensures rotated[..] == Reversed(image[..])
  {
    rotated := new Byte[width * height];
    var i, done := 0, 0;
    while i < height
      invariant 0 <= i <= height && done == i * width && done <= width * height
      invariant forall k :: 0 <= k < done ==> rotated[k] == image[width * height - 1 - k]
    {
      var j := 0;
      while j < width
        invariant 0 <= j <= width && done + j <= width * height
        invariant forall k :: 0 <= k < done + j ==> rotated[k] == image[width * height - 1 - k]
      {
        Arithmetic.RowMajor(i, j, width, height);
        rotated[done + j] := image[width * height - 1 - (done + j)];
        j := j + 1;
      }
      assert (i + 1) * width == done + width;
      i, done := i + 1, done + width;
    }
  }

  /** The Left case: a clockwise quarter turn, filled in output order. */
  method RotateLeft(image: array<Byte>, width: nat, height: nat) returns (rotated: array<Byte>)
    requires image.Length == width * height
    ensures fresh(rotated)
    ensures rotated[..] == RotatedLeft(image[..], width, height)
  {
    rotated := new Byte[width * height];
    var i, done := 0, 0;
    while i < width
      invariant 0 <= i <= width && done == i * height && done <= width * height
      invariant forall k :: 0 <= k < done ==> rotated[k] == image[LeftSource(width, height, k)]
    {
      var j := 0;
      while j < height
        invariant 0 <= j <= height && done + j <= width * height
        invariant forall k :: 0 <= k < done + j ==> rotated[k] == image[LeftSource(width, height, k)]
      {
        LeftSourceAt(width, height, i, j);
        rotated[done + j] := image[(height - 1 - j) * width + i];
        j := j + 1;
      }
      assert (i + 1) * height == done + height;
      i, done := i + 1, done + height;
    }
  }

  /** The Right case: a counter-clockwise quarter turn, filled in output
      order. */
  method RotateRight(image: array<Byte>, width: nat, height: nat) returns (rotated: array<Byte>)
    requires image.Length == width * height
    ensures fresh(rotated)
    ensures rotated[..] == RotatedRight(image[..], width, height)
  {
    rotated := new Byte[width * height];
    var i, done := 0, 0;
    while i < width
      invariant 0 <= i <= width && done == i * height && done <= width * height
      invariant forall k :: 0 <= k < done ==> rotated[k] == image[RightSource(width, height, k)]
    {
      var j := 0;
      while j < height
        invariant 0 <= j <= height && done + j <= width * height
        invariant forall k :: 0 <= k < done + j ==> rotated[k] == image[RightSource(width, height, k)]
      {
        RightSourceAt(width, height, i, j);
        rotated[done + j] := image[width * (j + 1) - i - 1];
        j := j + 1;
      }
      assert (i + 1) * height == done + height;
      i, done := i + 1, done + height;
    }
  }

  /** rotateImageForOrientation: a new buffer holding the image turned
      upright, with its new width and height (swapped by a quarter turn) and
      a stride equal to the new width. */
  method RotateImageForOrientation(image: array<Byte>, width: nat, height: nat, orientation: ImageOrientation)
    returns (rotated: array<Byte>, newWidth: nat, newHeight: nat, stride: nat)
    requires image.Length == width * height
    ensures fresh(rotated) && rotated.Length == image.Length && stride == newWidth
    ensures orientation == Up ==> rotated[..] == image[..] && newWidth == width && newHeight == height
    ensures orientation == Down ==>
      rotated[..] == Reversed(image[..]) && newWidth == width && newHeight == height
    ensures orientation == Left ==>
      rotated[..] == RotatedLeft(image[..], width, height) && newWidth == height && newHeight == width
    ensures orientation == Right ==>
      rotated[..] == RotatedRight(image[..], width, height) && newWidth == height && newHeight == width
  {
    match orientation {
      case Up =>
        rotated := new Byte[image.Length](k requires 0 <= k < image.Length reads image => image[k]);
        newWidth, newHeight := width, height;
      case Down =>
        rotated := ReverseImage(image, width, height);
        newWidth, newHeight := width, height;
      case Left =>
        rotated := RotateLeft(image, width, height);
        newWidth, newHeight := height, width;
      case Right =>
        rotated := RotateRight(image, width, height);
        newWidth, newHeight := height, width;
    }
    stride := newWidth;
  }

  // ---------------------------------------------------------------------
  // Anchors, cloud anchors and buffers
  // ---------------------------------------------------------------------

  /** An ARCore-backed anchor: `handle` stands for the object's identity,
      `id` is its anchor id and `nativeKey` the decimal text of its
      underlying ARCore anchor id. */
  datatype Anchor = Anchor(handle: nat, id: string, nativeKey: string)

  /** The anchor list without any occurrence of `a`. */
  function Without(anchors: seq<Anchor>, a: Anchor): (r: seq<Anchor>)
    ensures a !in r
    ensures forall x :: x in r <==> x in anchors && x != a
    ensures multiset(r)[a] == 0 && forall x :: x != a ==> multiset(r)[x] == multiset(anchors)[x]
  {
    if anchors == [] then []
    else
      var rest := Without(anchors[..|anchors| - 1], a);
      assert anchors == anchors[..|anchors| - 1] + [anchors[|anchors| - 1]];
      if anchors[|anchors| - 1] == a then rest else rest + [anchors[|anchors| - 1]]
  }

  /** The map without any entry whose value is `a`. */
  function WithoutValue(anchorMap: map<string, Anchor>, a: Anchor): (r: map<string, Anchor>)
    ensures forall key :: key in r <==> key in anchorMap && anchorMap[key] != a
    ensures forall key :: key in r ==> r[key] == anchorMap[key]
  {
    map key | key in anchorMap && anchorMap[key] != a :: anchorMap[key]
  }

  /** arcore::CloudAnchorMode. */
  datatype CloudAnchorMode = CloudDisabled | CloudEnabled

  /** VROCloudAnchorProvider. */
  datatype CloudAnchorProvider = NoProvider | ARCoreProvider

  /** The ARCore trackable kinds the session meets. */
  datatype Trackable = Plane(hashCode: int) | Image(name: string) | Point

  /** getKeyForTrackable: a plane's decimal hash code, an image's name, and
      the empty string for any other trackable. */
  function KeyForTrackable(t: Trackable): (key: string)
    ensures t.Plane? ==> key == Decimal.IntToString(t.hashCode) && key != ""
    ensures t.Image? ==> key == t.name
    ensures t.Point? ==> key == ""
  {
    match t
    case Plane(h) => Decimal.IntToString(h)
    case Image(name) => name
    case Point => ""
  }

  /** The fields of VROARSessionARCore this model follows. */
  class Session {
    var planeFindingMode: PlaneFindingMode
    var cloudAnchorMode: CloudAnchorMode
    var anchors: seq<Anchor>
    var nativeAnchorMap: map<string, Anchor>
    var rotatedImageData: array?<Byte>
    var rotatedImageDataLength: int

    /** The buffer, when allocated, is as long as its recorded length. */
    predicate Valid()
      reads this
    {
      rotatedImageData != null ==> rotatedImageData.Length == rotatedImageDataLength
    }

    /** The constructor: horizontal plane finding, cloud anchors enabled,
        no anchors and no rotated-image buffer. */
    constructor()
      ensures Valid()
      ensures planeFindingMode == Horizontal && cloudAnchorMode == CloudEnabled
      ensures anchors == [] && nativeAnchorMap == map[]
      ensures rotatedImageData == null && rotatedImageDataLength == 0
    {
      planeFindingMode := Horizontal;
      cloudAnchorMode := CloudEnabled;
      anchors := [];
      nativeAnchorMap := map[];
      rotatedImageData := null;
      rotatedImageDataLength := 0;
    }

    /** setAnchorDetection: one pass over the requested types, then the
        plane-finding mode they call for. */
    method SetAnchorDetection(types: set<AnchorDetection>)
      modifies this
      ensures planeFindingMode == PlaneFindingFor(types)
      ensures cloudAnchorMode == old(cloudAnchorMode) && anchors == old(anchors)
      ensures nativeAnchorMap == old(nativeAnchorMap)
      ensures rotatedImageData == old(rotatedImageData)
      ensures rotatedImageDataLength == old(rotatedImageDataLength)
    {
      var planesHorizontal, planesVertical := false, false;
      var rest := types;
      while rest != {}
        invariant rest <= types
        invariant planesHorizontal <==> PlanesHorizontal in types - rest
        invariant planesVertical <==> PlanesVertical in types - rest
        decreases |rest|
      {
        var t :| t in rest;
        match t {
          case PlanesHorizontal => planesHorizontal := true;
          case PlanesVertical => planesVertical := true;
        }
        rest := rest - {t};
      }
      if planesHorizontal && planesVertical {
        planeFindingMode := HorizontalAndVertical;
      } else if planesHorizontal {
        planeFindingMode := Horizontal;
      } else if planesVertical {
        planeFindingMode := Vertical;
      } else {
        planeFindingMode := Disabled;
      }
    }

    /** setCloudAnchorProvider: no provider disables cloud anchors, any
        provider enables them. */
    method SetCloudAnchorProvider(provider: CloudAnchorProvider)
      modifies this
      ensures cloudAnchorMode == CloudDisabled <==> provider == NoProvider
      ensures planeFindingMode == old(planeFindingMode) && anchors == old(anchors)
      ensures nativeAnchorMap == old(nativeAnchorMap)
      ensures rotatedImageData == old(rotatedImageData)
      ensures rotatedImageDataLength == old(rotatedImageDataLength)
    {
      if provider == NoProvider {
        cloudAnchorMode := CloudDisabled;
      } else {
        cloudAnchorMode := CloudEnabled;
      }
    }

    /** hostCloudAnchor: whether the request is handed to the provider; a
        session with cloud anchors disabled ignores it. */
    method HostCloudAnchor(a: Anchor) returns (forwarded: bool)
      ensures forwarded <==> cloudAnchorMode == CloudEnabled
    {
      if cloudAnchorMode == CloudDisabled {
        return false;
      }
      return true;
    }

    /** resolveCloudAnchor: as for hosting, a disabled session ignores the
        request. */
    method ResolveCloudAnchor(cloudAnchorId: string) returns (forwarded: bool)
      ensures forwarded <==> cloudAnchorMode == CloudEnabled
    {
      if cloudAnchorMode == CloudDisabled {
        return false;
      }
      return true;
    }

    /** addAnchor: the anchor is filed under its native key and its anchor
        id (the latter winning if they coincide) and appended to the list. */
    method AddAnchor(a: Anchor)
      modifies this
      ensures nativeAnchorMap == old(nativeAnchorMap)[a.nativeKey := a][a.id := a]
      ensures anchors == old(anchors) + [a]
      ensures planeFindingMode == old(planeFindingMode) && cloudAnchorMode == old(cloudAnchorMode)
      ensures rotatedImageData == old(rotatedImageData)
      ensures rotatedImageDataLength == old(rotatedImageDataLength)
    {
      nativeAnchorMap := nativeAnchorMap[a.nativeKey := a];
      nativeAnchorMap := nativeAnchorMap[a.id := a];
      anchors := anchors + [a];
    }

    /** removeAnchor: every occurrence of the anchor leaves the list, in
        order, and every map entry holding it is erased. */
    method RemoveAnchor(a: Anchor)
      modifies this
      ensures anchors == Without(old(anchors), a)
      ensures nativeAnchorMap == WithoutValue(old(nativeAnchorMap), a)
      ensures planeFindingMode == old(planeFindingMode) && cloudAnchorMode == old(cloudAnchorMode)
      ensures rotatedImageData == old(rotatedImageData)
      ensures rotatedImageDataLength == old(rotatedImageDataLength)
    {
      anchors := EraseAnchor(anchors, a);
      nativeAnchorMap := EraseValue(nativeAnchorMap, a);
    }

    /** getRotatedCameraImageData: the buffer is reallocated only when
        there is none or its recorded length differs from `size`; either
        way the result is `size` bytes long and is the session's buffer. */
    method GetRotatedCameraImageData(size: nat) returns (data: array<Byte>)
      requires Valid()
      modifies this
      ensures Valid()
      ensures data == rotatedImageData && data.Length == size && rotatedImageDataLength == size
      ensures old(rotatedImageData) != null && old(rotatedImageDataLength) == size ==>
        data == old(rotatedImageData)
      ensures old(rotatedImageData) == null || old(rotatedImageDataLength) != size ==> fresh(data)
      ensures planeFindingMode == old(planeFindingMode) && cloudAnchorMode == old(cloudAnchorMode)
      ensures anchors == old(anchors) && nativeAnchorMap == old(nativeAnchorMap)
    {
      if rotatedImageData == null || rotatedImageDataLength != size {
        rotatedImageData := new Byte[size];
        rotatedImageDataLength := size;
      }
      data := rotatedImageData;
    }
  }

  /** The erase-remove over the anchor list: the anchors other than `a`,
      in their order. */
  method EraseAnchor(anchors: seq<Anchor>, a: Anchor) returns (kept: seq<Anchor>)
    ensures kept == Without(anchors, a)
  {
    kept := [];
    var i := 0;
    while i < |anchors|
      invariant 0 <= i <= |anchors|
      invariant kept == Without(anchors[..i], a)
    {
      assert anchors[..i + 1][..i] == anchors[..i];
      if anchors[i] != a {
        kept := kept + [anchors[i]];
      }
      i := i + 1;
    }
    assert anchors[..|anchors|] == anchors;
  }

  /** The erasing walk over the anchor map: every entry whose value is `a`
      is removed, the others are kept. */
  method EraseValue(anchorMap: map<string, Anchor>, a: Anchor) returns (r: map<string, Anchor>)
    ensures r == WithoutValue(anchorMap, a)
  {
    r := anchorMap;
    var remaining := anchorMap.Keys;
    while remaining != {}
      invariant remaining <= anchorMap.Keys
      invariant forall key :: key in r <==> key in anchorMap && (key in remaining || anchorMap[key] != a)
      invariant forall key :: key in r ==> r[key] == anchorMap[key]
      decreases |remaining|
    {
      var key :| key in remaining;
      if r[key] == a {
        r := r - {key};
      }
      remaining := remaining - {key};
    }
  }

  /** The anchor state as values, for reasoning about sequences of calls. */
  datatype Anchors = Anchors(list: seq<Anchor>, byKey: map<string, Anchor>)

  function Added(s: Anchors, a: Anchor): Anchors
  {
    Anchors(s.list + [a], s.byKey[a.nativeKey := a][a.id := a])
  }

  function Removed(s: Anchors, a: Anchor): Anchors
  {
    Anchors(Without(s.list, a), WithoutValue(s.byKey, a))
  }

  /** Removing an anchor undoes adding it when it was not yet known: not
      in the list, held by no entry, and neither of its keys in use. */
  lemma {:induction false} RemoveUndoesAdd(s: Anchors, a: Anchor)
    requires a !in s.list
    requires forall key :: key in s.byKey ==> s.byKey[key] != a
    requires a.nativeKey !in s.byKey && a.id !in s.byKey
    ensures Removed(Added(s, a), a) == s
  {
    WithoutAppended(s.list, a);
    ErasesAddedEntries(s.byKey, a);
  }

  lemma WithoutAppended(anchors: seq<Anchor>, a: Anchor)
    requires a !in anchors
    ensures Without(anchors + [a], a) == anchors
  {
    WithoutAbsent(anchors, a);
    assert (anchors + [a])[..|anchors + [a]| - 1] == anchors;
  }

  lemma ErasesAddedEntries(byKey: map<string, Anchor>, a: Anchor)
    requires forall key :: key in byKey ==> byKey[key] != a
    requires a.nativeKey !in byKey && a.id !in byKey
    ensures WithoutValue(byKey[a.nativeKey := a][a.id := a], a) == byKey
  {
    var r := WithoutValue(byKey[a.nativeKey := a][a.id := a], a);
    assert forall key :: key in r <==> key in byKey;
  }

  lemma {:induction false} WithoutAbsent(anchors: seq<Anchor>, a: Anchor)
    requires a !in anchors
    ensures Without(anchors, a) == anchors
    decreases |anchors|
  {
    if anchors != [] {
      WithoutAbsent(anchors[..|anchors| - 1], a);
      assert anchors == anchors[..|anchors| - 1] + [anchors[|anchors| - 1]];
    }
  }

  /** After removal the anchor is gone from the list and from every map
      entry, however often it was added. */
  lemma RemovedIsGone(s: Anchors, a: Anchor)
    ensures a !in Removed(s, a).list
    ensures forall key :: key in Removed(s, a).byKey ==> Removed(s, a).byKey[key] != a
  {
  }
}
