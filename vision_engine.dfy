/** The vision engine's bookkeeping around the pose model
    (VROVisionEngine.cpp): the moving-average frame rate, the dynamic crop
    box derived from the joints the model found, its smoothing, the region
    of interest handed to the model and the pixel crop rectangle.

    Single-precision arithmetic is modelled with reals. The One Euro
    filters and the Euclidean distance between joints are parameters:
    `filter` gives each filter's output for its input, `distance` the
    distance between two positions. VROMath is not part of this model:
    clamp(v, lo, hi) is taken as the value limited to [lo, hi] (every use
    here has lo <= hi) and VROMathInterpolate(t, 0, 1, a, b) as
    a + (b - a) t. The header holding kNeuralFPSMaxSamples is not part of
    this model either: the sample count is a constructor parameter. */
module VisionEngine {
  import opened Wrappers
  import opened BodyJoints

  const ConfidenceThreshold: real := 0.15
  const CropPaddingX: real := 0.40
  const CropPaddingY: real := 0.25
  const CropBoxSmoothingFactor: real := 0.2
  const CropMinimumJoints: nat := 6
  const RegionOfInterestCroppingEpsilon: real := 0.001
  const RegionOfInterestRoundingEpsilon: real := 0.05
  /** FLT_MAX: the scan's extremes start at +-FLT_MAX. */
  const FltMax: real := 340282346638528859811704183484516925440.0

  /** A rectangle in normalized image coordinates (0 to 1 across). */
  datatype Rect = Rect(x: real, y: real, width: real, height: real)

  /** A joint as the model's delegate reports it: image-space position and confidence. */
  datatype Joint = Joint(position: Vec3, confidence: real)

  datatype Axis = Horizontal | Vertical

  /** The four One Euro filters of the crop box. */
  datatype Channel = CropX | CropY | CropWidth | CropHeight

  /** VROCropAndScaleOption and the image crop-and-scale option of the
      vision request. */
  datatype CropAndScaleOption = CoreMLFill | CoreMLFit | CoreMLFitCrop | ViroFitCropPad | ViroRegionOfInterest
  datatype ImageCropAndScale = ScaleFill | ScaleFit | CenterCrop

  function Min(a: real, b: real): real
  {
    if b < a then b else a
  }

  function Max(a: real, b: real): real
  {
    if a < b then b else a
  }

  function Abs(a: real): real
  {
    if a < 0.0 then -a else a
  }

  // ---------------------------------------------------------------------
  // Frame rate
  // ---------------------------------------------------------------------

  function Sum(s: seq<nat>): nat
  {
    if |s| == 0 then 0 else Sum(s[..|s| - 1]) + s[|s| - 1]
  }

  /** Replacing one sample changes the sum by the difference. */
  lemma {:induction false} SumUpdate(s: seq<nat>, i: nat, v: nat)
    requires i < |s|
    ensures Sum(s[i := v]) == Sum(s) - s[i] + v
  {
    var t := s[i := v];
    if i < |s| - 1 {
      assert t[..|t| - 1] == s[..|s| - 1][i := v];
      SumUpdate(s[..|s| - 1], i, v);
    } else {
      assert t[..|t| - 1] == s[..|s| - 1];
    }
  }

  /** A window of zero samples sums to zero. */
  lemma {:induction false} SumZeros(n: nat)
    ensures Sum(seq(n, _ => 0)) == 0
  {
    if n > 0 {
      assert seq(n, _ => 0)[..n - 1] == seq(n - 1, _ => 0);
      SumZeros(n - 1);
    }
  }

  /** The nanoseconds between two readings of the 64-bit clock, as an
      unsigned 64-bit difference. */
  function Tick(now: nat, last: nat): (t: nat)
    ensures t < 0x1_0000_0000_0000_0000
    ensures last <= now < 0x1_0000_0000_0000_0000 ==> t == now - last
  {
    (now - last) % 0x1_0000_0000_0000_0000
  }

  // ---------------------------------------------------------------------
  // Scanning the joints
  // ---------------------------------------------------------------------

  predicate Confident(j: Joint)
  {
    j.confidence > ConfidenceThreshold
  }

  function Coord(p: Vec3, axis: Axis): real
  {
    if axis == Horizontal then p.x else p.y
  }

  /** A coordinate a single-precision float can hold. */
  predicate Finite(joints: seq<Joint>)
  {
    forall i :: 0 <= i < |joints| ==> -FltMax <= joints[i].position.x <= FltMax && -FltMax <= joints[i].position.y <= FltMax
  }

  /** The number of confident joints among the first n. */
  function ConfidentCount(joints: seq<Joint>, n: nat): nat
    requires n <= |joints|
  {
    if n == 0 then 0
    else ConfidentCount(joints, n - 1) + if Confident(joints[n - 1]) then 1 else 0
  }

  /** The smallest coordinate of a confident joint among the first n,
      FLT_MAX when there is none. */
  function Lowest(joints: seq<Joint>, n: nat, axis: Axis): real
    requires n <= |joints|
  {
    if n == 0 then FltMax
    else if Confident(joints[n - 1]) then Min(Lowest(joints, n - 1, axis), Coord(joints[n - 1].position, axis))
    else Lowest(joints, n - 1, axis)
  }

  /** The largest coordinate of a confident joint among the first n,
      -FLT_MAX when there is none. */
  function Highest(joints: seq<Joint>, n: nat, axis: Axis): real
    requires n <= |joints|
  {
    if n == 0 then -FltMax
    else if Confident(joints[n - 1]) then Max(Highest(joints, n - 1, axis), Coord(joints[n - 1].position, axis))
    else Highest(joints, n - 1, axis)
  }

  /** Lowest and Highest bound every confident joint, and when there is
      one they are attained by confident joints. */
  lemma {:induction false} ExtremesBound(joints: seq<Joint>, n: nat, axis: Axis)
    requires n <= |joints| && Finite(joints)
    ensures forall i :: 0 <= i < n && Confident(joints[i]) ==>
      Lowest(joints, n, axis) <= Coord(joints[i].position, axis) <= Highest(joints, n, axis)
    ensures ConfidentCount(joints, n) == 0 ==> Lowest(joints, n, axis) == FltMax && Highest(joints, n, axis) == -FltMax
    ensures ConfidentCount(joints, n) > 0 ==>
      (exists i :: 0 <= i < n && Confident(joints[i]) && Coord(joints[i].position, axis) == Lowest(joints, n, axis))
      && (exists i :: 0 <= i < n && Confident(joints[i]) && Coord(joints[i].position, axis) == Highest(joints, n, axis))
  {
    if n > 0 {
      ExtremesBound(joints, n - 1, axis);
    }
  }

  /** The joint loop of deriveBounds: how many joints are confident, the
      extremes of their coordinates, and which joints were found. */
  method ScanJoints(joints: seq<Joint>)
    returns (count: nat, minX: real, maxX: real, minY: real, maxY: real, found: seq<bool>)
    ensures count == ConfidentCount(joints, |joints|)
    ensures minX == Lowest(joints, |joints|, Horizontal) && maxX == Highest(joints, |joints|, Horizontal)
    ensures minY == Lowest(joints, |joints|, Vertical) && maxY == Highest(joints, |joints|, Vertical)
    ensures |found| == |joints| && forall i :: 0 <= i < |joints| ==> found[i] == Confident(joints[i])
  {
    count, minX, maxX, minY, maxY, found := 0, FltMax, -FltMax, FltMax, -FltMax, [];
    var i := 0;
    while i < |joints|
      invariant 0 <= i <= |joints|
      invariant count == ConfidentCount(joints, i)
      invariant minX == Lowest(joints, i, Horizontal) && maxX == Highest(joints, i, Horizontal)
      invariant minY == Lowest(joints, i, Vertical) && maxY == Highest(joints, i, Vertical)
      invariant |found| == i && forall k :: 0 <= k < i ==> found[k] == Confident(joints[k])
    {
      var confident := joints[i].confidence > ConfidenceThreshold;
      if confident {
        count := count + 1;
        var position := joints[i].position;
        minX := Min(minX, position.x);
        minY := Min(minY, position.y);
        maxX := Max(maxX, position.x);
        maxY := Max(maxY, position.y);
      }
      found := found + [confident];
      i := i + 1;
    }
  }

  // ---------------------------------------------------------------------
  // The dynamic crop box
  // ---------------------------------------------------------------------

  /** The box fits the image: it starts inside it and ends by its far
      edges. */
  predicate WithinImage(r: Rect)
  {
    0.0 <= r.x && 0.0 <= r.y && r.width <= 1.0 - r.x && r.height <= 1.0 - r.y
  }

  predicate InImage(p: Vec3)
  {
    0.0 <= p.x <= 1.0 && 0.0 <= p.y <= 1.0
  }

  predicate Covers(r: Rect, p: Vec3)
  {
    r.x <= p.x <= r.x + r.width && r.y <= p.y <= r.y + r.height
  }

  /** The final clamp: the origin moved to at least 0, the size cut back to
      the far edges. */
  function ClampToImage(b: Rect): (r: Rect)
    ensures WithinImage(r)
    ensures WithinImage(b) ==> r == b
  {
    var x := Max(b.x, 0.0);
    var y := Max(b.y, 0.0);
    Rect(x, y, Min(b.width, 1.0 - x), Min(b.height, 1.0 - y))
  }

  /** The body box grown by 40% of its width on the left and the right and
      25% of its height above and below. */
  function Padded(b: Rect): Rect
  {
    Rect(b.x - b.width * CropPaddingX, b.y - b.height * CropPaddingY,
         b.width * (1.0 + 2.0 * CropPaddingX), b.height * (1.0 + 2.0 * CropPaddingY))
  }

  /** Growing the box sideways by 40% of its width on each side, when
      `widen`. */
  function WidenX(b: Rect, widen: bool): Rect
  {
    if widen then
      var expansion := b.width * CropPaddingX;
      Rect(b.x - expansion, b.y, b.width + 2.0 * expansion, b.height)
    else b
  }

  /** Growing the box vertically by `factor` of its height above and
      below, when `widen`. */
  function WidenY(b: Rect, widen: bool, factor: real): Rect
  {
    if widen then
      var expansion := b.height * factor;
      Rect(b.x, b.y - expansion, b.width, b.height + 2.0 * expansion)
    else b
  }

  /** Extending the box upwards so that it reaches `reach` above the
      pelvis, keeping its lower edge. */
  function PelvisReach(b: Rect, pelvisY: real, reach: real): Rect
  {
    if pelvisY - reach < b.y then
      var top := pelvisY - reach;
      Rect(b.x, top, b.width, b.height + (b.y - top))
    else b
  }

  predicate Found(joints: seq<Joint>, t: JointType)
    requires |joints| == NumJoints
  {
    Confident(joints[Index(t)])
  }

  /** The larger of 0 and the distances from the pelvis to the ankles that
      were found. */
  function AnkleReach(joints: seq<Joint>, distance: (Vec3, Vec3) -> real): real
    requires |joints| == NumJoints
  {
    var pelvis := joints[Index(Pelvis)].position;
    var left := if Found(joints, LeftAnkle) then Max(0.0, distance(pelvis, joints[Index(LeftAnkle)].position)) else 0.0;
    if Found(joints, RightAnkle) then Max(left, distance(pelvis, joints[Index(RightAnkle)].position)) else left
  }

  /** The growth deriveBounds applies to the padded box: sideways when a
      left wrist or ankle is missing, upwards and downwards when the top of
      the head is missing, sideways again when a right wrist or ankle is
      missing, a lot vertically when both ankles are missing, and up to
      the pelvis-to-ankle reach when the pelvis was found. */
  function Grown(b: Rect, joints: seq<Joint>, distance: (Vec3, Vec3) -> real): Rect
    requires |joints| == NumJoints
  {
    var b1 := WidenX(b, !Found(joints, LeftWrist) || !Found(joints, LeftAnkle));
    var b2 := WidenY(b1, !Found(joints, Top), CropPaddingY);
    var b3 := WidenX(b2, !Found(joints, RightWrist) || !Found(joints, RightAnkle));
    var b4 := WidenY(b3, !Found(joints, LeftAnkle) && !Found(joints, RightAnkle), 4.0 * CropPaddingY);
    if Found(joints, Pelvis) then PelvisReach(b4, joints[Index(Pelvis)].position.y, AnkleReach(joints, distance)) else b4
  }

  /** The box of the confident joints, before filtering. */
  function BodyBox(joints: seq<Joint>): Rect
  {
    var minX, maxX := Lowest(joints, |joints|, Horizontal), Highest(joints, |joints|, Horizontal);
    var minY, maxY := Lowest(joints, |joints|, Vertical), Highest(joints, |joints|, Vertical);
    Rect(minX, minY, maxX - minX, maxY - minY)
  }

  function Filtered(b: Rect, filter: (Channel, real) -> real): Rect
  {
    Rect(filter(CropX, b.x), filter(CropY, b.y), filter(CropWidth, b.width), filter(CropHeight, b.height))
  }

  /** deriveBounds: no box when fewer than 6 joints are confident;
      otherwise the filtered box around the confident joints, padded,
      grown towards missing joints and clamped to the image. */
  function Bounds(joints: seq<Joint>, filter: (Channel, real) -> real, distance: (Vec3, Vec3) -> real): Option<Rect>
    requires |joints| == NumJoints
  {
    if ConfidentCount(joints, |joints|) < CropMinimumJoints then None
    else Some(ClampToImage(Grown(Padded(Filtered(BodyBox(joints), filter)), joints, distance)))
  }

  /** The box exists exactly when at least 6 joints are confident, and it
      always fits the image. */
  lemma BoundsShape(joints: seq<Joint>, filter: (Channel, real) -> real, distance: (Vec3, Vec3) -> real)
    requires |joints| == NumJoints
    ensures Bounds(joints, filter, distance).None? <==> ConfidentCount(joints, |joints|) < CropMinimumJoints
    ensures Bounds(joints, filter, distance).Some? ==> WithinImage(Bounds(joints, filter, distance).value)
  {
  }

  ghost predicate IsIdentity(filter: (Channel, real) -> real)
  {
    forall c: Channel, v: real :: filter(c, v) == v
  }

  /** The box reaches from at or before `low` to at or after `high` along
      the axis. */
  predicate Spans(b: Rect, low: real, high: real, axis: Axis)
  {
    if axis == Horizontal then b.x <= low && high <= b.x + b.width && 0.0 <= b.width
    else b.y <= low && high <= b.y + b.height && 0.0 <= b.height
  }

  /** Each step of padding and growing only ever pushes the box's edges
      outwards. */
  lemma GrowStepsKeepSpan(b: Rect, low: real, high: real, axis: Axis, widen: bool, factor: real, pelvisY: real, reach: real)
    requires Spans(b, low, high, axis) && factor >= 0.0
    ensures Spans(Padded(b), low, high, axis)
    ensures Spans(WidenX(b, widen), low, high, axis)
    ensures Spans(WidenY(b, widen, factor), low, high, axis)
    ensures Spans(PelvisReach(b, pelvisY, reach), low, high, axis)
  {
  }

  /** Padding and growing only ever push the box's edges outwards. */
  lemma {:induction false} GrownKeepsSpan(b: Rect, joints: seq<Joint>, distance: (Vec3, Vec3) -> real, low: real, high: real, axis: Axis)
    requires |joints| == NumJoints && Spans(b, low, high, axis)
    ensures Spans(Grown(Padded(b), joints, distance), low, high, axis)
  {
    var pelvisY, reach := joints[Index(Pelvis)].position.y, AnkleReach(joints, distance);
    var w1, w2 := !Found(joints, LeftWrist) || !Found(joints, LeftAnkle), !Found(joints, Top);
    var w3, w4 := !Found(joints, RightWrist) || !Found(joints, RightAnkle), !Found(joints, LeftAnkle) && !Found(joints, RightAnkle);
    GrowStepsKeepSpan(b, low, high, axis, false, 0.0, 0.0, 0.0);
    var b0 := Padded(b);
    GrowStepsKeepSpan(b0, low, high, axis, w1, 0.0, 0.0, 0.0);
    var b1 := WidenX(b0, w1);
    GrowStepsKeepSpan(b1, low, high, axis, w2, CropPaddingY, 0.0, 0.0);
    var b2 := WidenY(b1, w2, CropPaddingY);
    GrowStepsKeepSpan(b2, low, high, axis, w3, 0.0, 0.0, 0.0);
    var b3 := WidenX(b2, w3);
    GrowStepsKeepSpan(b3, low, high, axis, w4, 4.0 * CropPaddingY, 0.0, 0.0);
    var b4 := WidenY(b3, w4, 4.0 * CropPaddingY);
    GrowStepsKeepSpan(b4, low, high, axis, false, 0.0, pelvisY, reach);
  }

  /** Clamping keeps every point of the image the box held. */
  lemma ClampKeepsCover(b: Rect, p: Vec3)
    requires Spans(b, p.x, p.x, Horizontal) && Spans(b, p.y, p.y, Vertical) && InImage(p)
    ensures Covers(ClampToImage(b), p)
  {
  }

  /** Without filtering, the box holds every confident joint that lies in
      the image: the crop never cuts off a detected part of the body. */
  lemma BoundsCoverBody(joints: seq<Joint>, filter: (Channel, real) -> real, distance: (Vec3, Vec3) -> real)
    requires |joints| == NumJoints && Finite(joints) && IsIdentity(filter)
    ensures Bounds(joints, filter, distance).Some? ==>
      forall i :: 0 <= i < |joints| && Confident(joints[i]) && InImage(joints[i].position) ==>
        Covers(Bounds(joints, filter, distance).value, joints[i].position)
  {
    if ConfidentCount(joints, |joints|) >= CropMinimumJoints {
      ExtremesBound(joints, |joints|, Horizontal);
      ExtremesBound(joints, |joints|, Vertical);
      var body := BodyBox(joints);
      assert Filtered(body, filter) == body;
      GrownKeepsSpan(body, joints, distance, body.x, body.x + body.width, Horizontal);
      GrownKeepsSpan(body, joints, distance, body.y, body.y + body.height, Vertical);
      var grown := Grown(Padded(body), joints, distance);
      forall i | 0 <= i < |joints| && Confident(joints[i]) && InImage(joints[i].position)
        ensures Covers(ClampToImage(grown), joints[i].position)
      {
        ClampKeepsCover(grown, joints[i].position);
      }
    }
  }

  /** deriveBounds, step by step. */
  method DeriveBounds(joints: seq<Joint>, filter: (Channel, real) -> real, distance: (Vec3, Vec3) -> real)
    returns (r: Option<Rect>)
    requires |joints| == NumJoints
    ensures r == Bounds(joints, filter, distance)
  {
    var count, minX, maxX, minY, maxY, found := ScanJoints(joints);
    if count < CropMinimumJoints {
      return None;
    }
    var x := filter(CropX, minX);
    var y := filter(CropY, minY);
    var width := filter(CropWidth, maxX - minX);
    var height := filter(CropHeight, maxY - minY);

    x := x - width * CropPaddingX;
    y := y - height * CropPaddingY;
    width := width * (1.0 + 2.0 * CropPaddingX);
    height := height * (1.0 + 2.0 * CropPaddingY);

    ghost var padded := Padded(Filtered(BodyBox(joints), filter));
    assert Rect(x, y, width, height) == padded;
    var grown := GrowBox(Rect(x, y, width, height), joints, found, distance);
    x, y, width, height := grown.x, grown.y, grown.width, grown.height;
    assert Bounds(joints, filter, distance) == Some(ClampToImage(grown));
    var clamped := ClampBox(x, y, width, height);
    return Some(clamped);
  }

  /** The clamp closing deriveBounds and deriveBoundsSmooth. */
  method ClampBox(x: real, y: real, width: real, height: real) returns (r: Rect)
    ensures r == ClampToImage(Rect(x, y, width, height))
  {
    var x', y', width', height' := x, y, width, height;
    x' := Max(x', 0.0);
    y' := Max(y', 0.0);
    width' := Min(width', 1.0 - x');
    height' := Min(height', 1.0 - y');
    r := Rect(x', y', width', height');
  }

  /** The expansions of deriveBounds towards joints that were not found. */
  method GrowBox(b: Rect, joints: seq<Joint>, found: seq<bool>, distance: (Vec3, Vec3) -> real) returns (r: Rect)
    requires |joints| == NumJoints && |found| == NumJoints
    requires forall i :: 0 <= i < NumJoints ==> found[i] == Confident(joints[i])
    ensures r == Grown(b, joints, distance)
  {
    var x, y, width, height := b.x, b.y, b.width, b.height;
    if !found[Index(LeftWrist)] || !found[Index(LeftAnkle)] {
      var expansion := width * CropPaddingX;
      x := x - expansion;
      width := width + 2.0 * expansion;
    }
    if !found[Index(Top)] {
      var expansion := height * CropPaddingY;
      y := y - expansion;
      height := height + 2.0 * expansion;
    }
    if !found[Index(RightWrist)] || !found[Index(RightAnkle)] {
      var expansion := width * CropPaddingX;
      x := x - expansion;
      width := width + 2.0 * expansion;
    }
    if !found[Index(LeftAnkle)] && !found[Index(RightAnkle)] {
      var expansion := height * 4.0 * CropPaddingY;
      y := y - expansion;
      height := height + 2.0 * expansion;
    }
    r := Rect(x, y, width, height);
    if found[Index(Pelvis)] {
      r := ReachPelvis(r, joints, found, distance);
    }
  }

  /** The pelvis step of deriveBounds: the box is extended upwards to the
      largest pelvis-to-ankle distance above the pelvis. */
  method ReachPelvis(b: Rect, joints: seq<Joint>, found: seq<bool>, distance: (Vec3, Vec3) -> real) returns (r: Rect)
    requires |joints| == NumJoints && |found| == NumJoints
    requires forall i :: 0 <= i < NumJoints ==> found[i] == Confident(joints[i])
    ensures r == PelvisReach(b, joints[Index(Pelvis)].position.y, AnkleReach(joints, distance))
  {
    var y, height := b.y, b.height;
    var reach := 0.0;
    var pelvis := joints[Index(Pelvis)].position;
    if found[Index(LeftAnkle)] {
      reach := Max(reach, distance(pelvis, joints[Index(LeftAnkle)].position));
    }
    if found[Index(RightAnkle)] {
      reach := Max(reach, distance(pelvis, joints[Index(RightAnkle)].position));
    }
    if pelvis.y - reach < y {
      var top := pelvis.y - reach;
      height := height + (y - top);
      y := top;
    }
    r := Rect(b.x, y, b.width, height);
  }

  function Lerp(from: real, to: real): real
  {
    from + (to - from) * CropBoxSmoothingFactor
  }

  /** deriveBoundsSmooth: with no previous box the new one is taken as it
      is; otherwise the box moves a fifth of the way towards the new one
      and is clamped again. Interpolating towards the null rectangle, whose
      origin is infinite, gives an infinite origin: the null rectangle. */
  function Smoothed(previous: Option<Rect>, next: Option<Rect>): (r: Option<Rect>)
  {
    if previous.None? then next
    else if next.None? then None
    else
      var p, n := previous.value, next.value;
      Some(ClampToImage(Rect(Lerp(p.x, n.x), Lerp(p.y, n.y), Lerp(p.width, n.width), Lerp(p.height, n.height))))
  }

  /** Smoothing keeps the box within the image, takes the first box as it
      is, and leaves a box that has stopped moving where it is. */
  lemma SmoothedProperties(previous: Option<Rect>, next: Option<Rect>)
    ensures next.Some? && WithinImage(next.value) && Smoothed(previous, next).Some? ==>
      WithinImage(Smoothed(previous, next).value)
    ensures previous.None? ==> Smoothed(previous, next) == next
    ensures next.None? ==> Smoothed(previous, next).None?
    ensures previous.Some? && previous == next && WithinImage(next.value) ==> Smoothed(previous, next) == next
  {
  }

  method DeriveBoundsSmooth(previous: Option<Rect>, joints: seq<Joint>, filter: (Channel, real) -> real,
                            distance: (Vec3, Vec3) -> real) returns (r: Option<Rect>)
    requires |joints| == NumJoints
    ensures r == Smoothed(previous, Bounds(joints, filter, distance))
  {
    var next := DeriveBounds(joints, filter, distance);
    if previous.None? {
      return next;
    }
    if next.None? {
      return None;
    }
    var p, n := previous.value, next.value;
    var x := Lerp(p.x, n.x);
    var y := Lerp(p.y, n.y);
    var width := Lerp(p.width, n.width);
    var height := Lerp(p.height, n.height);
    var clamped := ClampBox(x, y, width, height);
    return Some(clamped);
  }

  // ---------------------------------------------------------------------
  // Region of interest and the crop rectangle
  // ---------------------------------------------------------------------

  function Clamp(v: real, lo: real, hi: real): (r: real)
    requires lo <= hi
    ensures lo <= r <= hi && (lo <= v <= hi ==> r == v)
  {
    if v < lo then lo else if v > hi then hi else v
  }

  /** The crop box pulled inside [0.001, 0.999] on both axes. */
  function CropRegion(b: Rect): (r: Rect)
    ensures RegionOfInterestCroppingEpsilon <= r.x && RegionOfInterestCroppingEpsilon <= r.y
    ensures 0.0 <= r.width && r.x + r.width <= 1.0 - RegionOfInterestCroppingEpsilon
    ensures 0.0 <= r.height && r.y + r.height <= 1.0 - RegionOfInterestCroppingEpsilon
  {
    var eps := RegionOfInterestCroppingEpsilon;
    var x := Clamp(b.x, eps, 1.0 - eps);
    var y := Clamp(b.y, eps, 1.0 - eps);
    Rect(x, y, Clamp(b.width, 0.0, 1.0 - eps - x), Clamp(b.height, 0.0, 1.0 - eps - y))
  }

  predicate NearFullImage(r: Rect)
  {
    Abs(1.0 - r.width) < RegionOfInterestRoundingEpsilon && Abs(1.0 - r.height) < RegionOfInterestRoundingEpsilon
  }

  const FullImage := Rect(0.0, 0.0, 1.0, 1.0)

  predicate InUnitSquare(r: Rect)
  {
    0.0 <= r.x && 0.0 <= r.y && 0.0 <= r.width && 0.0 <= r.height && r.x + r.width <= 1.0 && r.y + r.height <= 1.0
  }

  /** The region of interest of the vision request (Viro_RegionOfInterest):
      the whole image without a crop box or when the crop region is within
      0.05 of full size; otherwise the crop region with its y flipped to
      CoreML's bottom-up axis. Either way it lies inside the image. */
  method RegionOfInterest(box: Option<Rect>) returns (roi: Rect)
    ensures box.None? ==> roi == FullImage
    ensures box.Some? && NearFullImage(CropRegion(box.value)) ==> roi == FullImage
    ensures box.Some? && !NearFullImage(CropRegion(box.value)) ==>
      var c := CropRegion(box.value);
      roi == Rect(c.x, 1.0 - c.y - c.height, c.width, c.height)
    ensures InUnitSquare(roi)
  {
    var cropX, cropY, cropWidth, cropHeight;
    if box.None? {
      cropX, cropY, cropWidth, cropHeight := 0.0, 0.0, 1.0, 1.0;
    } else {
      var eps := RegionOfInterestCroppingEpsilon;
      cropX := box.value.x;
      cropY := box.value.y;
      cropWidth := box.value.width;
      cropHeight := box.value.height;
      cropX := Clamp(cropX, eps, 1.0 - eps);
      cropY := Clamp(cropY, eps, 1.0 - eps);
      cropWidth := Clamp(cropWidth, 0.0, 1.0 - eps - cropX);
      cropHeight := Clamp(cropHeight, 0.0, 1.0 - eps - cropY);
    }
    if Abs(1.0 - cropWidth) < RegionOfInterestRoundingEpsilon && Abs(1.0 - cropHeight) < RegionOfInterestRoundingEpsilon {
      cropX, cropY, cropWidth, cropHeight := 0.0, 0.0, 1.0, 1.0;
    }
    roi := Rect(cropX, Abs(1.0 - cropY - cropHeight), cropWidth, cropHeight);
  }

  /** A double converted to int: truncation towards zero. */
  function Trunc(r: real): int
  {
    if r >= 0.0 then r.Floor else -((-r).Floor)
  }

  function ClampInt(v: int, lo: int, hi: int): (r: int)
    requires lo <= hi
    ensures lo <= r <= hi && (lo <= v <= hi ==> r == v)
  {
    if v < lo then lo else if v > hi then hi else v
  }

  /** A box coordinate scaled to pixels and converted to int. */
  function Scaled(v: real, size: nat): int
  {
    Trunc(v * size as real)
  }

  /** performCropAndPad's crop rectangle, in pixels: the whole image
      without a crop box; otherwise the box scaled to the image, truncated
      and clamped inside it. */
  function CropRect(box: Option<Rect>, width: nat, height: nat): (r: (int, int, int, int))
    ensures 0 <= r.0 <= width && 0 <= r.2 <= width - r.0 && 0 <= r.1 <= height && 0 <= r.3 <= height - r.1
  {
    if box.None? then (0, 0, width, height)
    else
      var b := box.value;
      var x := ClampInt(Scaled(b.x, width), 0, width);
      var y := ClampInt(Scaled(b.y, height), 0, height);
      (x, y, ClampInt(Scaled(b.width, width), 0, width - x), ClampInt(Scaled(b.height, height), 0, height - y))
  }

  /** The crop rectangle is the whole image without a box, and keeps a
      box's pixel coordinates wherever they already lie inside the image. */
  lemma CropRectKeepsInside(box: Option<Rect>, width: nat, height: nat)
    ensures box.None? ==> CropRect(box, width, height) == (0, 0, width, height)
    ensures box.Some? && 0 <= Scaled(box.value.x, width) && 0 <= Scaled(box.value.width, width)
            && Scaled(box.value.x, width) + Scaled(box.value.width, width) <= width ==>
      CropRect(box, width, height).0 == Scaled(box.value.x, width)
      && CropRect(box, width, height).2 == Scaled(box.value.width, width)
    ensures box.Some? && 0 <= Scaled(box.value.y, height) && 0 <= Scaled(box.value.height, height)
            && Scaled(box.value.y, height) + Scaled(box.value.height, height) <= height ==>
      CropRect(box, width, height).1 == Scaled(box.value.y, height)
      && CropRect(box, width, height).3 == Scaled(box.value.height, height)
  {
  }

  /** The clamping steps of performCropAndPad. */
  method ClampCrop(b: Rect, width: nat, height: nat) returns (x: int, y: int, w: int, h: int)
    ensures (x, y, w, h) == CropRect(Some(b), width, height)
  {
    x := Scaled(b.x, width);
    y := Scaled(b.y, height);
    w := Scaled(b.width, width);
    h := Scaled(b.height, height);
    x := ClampInt(x, 0, width);
    y := ClampInt(y, 0, height);
    w := ClampInt(w, 0, width - x);
    h := ClampInt(h, 0, height - y);
  }

  /** The crop-and-scale option of the vision request for each cropping
      option. */
  function RequestScale(option: CropAndScaleOption): ImageCropAndScale
  {
    match option
    case CoreMLFill => ScaleFill
    case CoreMLFit => ScaleFit
    case CoreMLFitCrop => CenterCrop
    case ViroFitCropPad => ScaleFill
    case ViroRegionOfInterest => ScaleFit
  }

  // ---------------------------------------------------------------------
  // The engine
  // ---------------------------------------------------------------------

  class Engine {
    /** kNeuralFPSMaxSamples. */
    const samples: nat
    var imageSize: int
    var cropAndScaleOption: CropAndScaleOption
    var requestScale: ImageCropAndScale
    /** The last `samples` frame times in nanoseconds, a ring buffer. */
    var ticks: array<nat>
    var tickIndex: nat
    var tickSum: int
    var nanosecondsLastFrame: nat
    /** The dynamic crop box; None is CGRectNull. */
    var dynamicCropBox: Option<Rect>
    var hasScratch: bool
    var scratchLength: int

    /** The frame-rate window: a full ring of samples, the index inside it
        and the running sum equal to the sum of the ring. */
    ghost predicate Valid()
      reads this, ticks
    {
      samples > 0 && ticks.Length == samples && tickIndex < samples && tickSum == Sum(ticks[..])
    }

    /** A zero-filled frame-rate window, no crop box and no scratch buffer.
        The cropping option is region of interest whatever was asked for. */
    constructor (imageSize: int, samples: nat, option: CropAndScaleOption)
      requires samples > 0
      ensures Valid() && fresh(ticks)
      ensures ticks[..] == seq(samples, _ => 0) && tickIndex == 0 && tickSum == 0
      ensures this.imageSize == imageSize && this.samples == samples
      ensures dynamicCropBox.None? && !hasScratch && scratchLength == 0
      ensures cropAndScaleOption == ViroRegionOfInterest && requestScale == ScaleFit
    {
      this.samples := samples;
      this.imageSize := imageSize;
      tickIndex, tickSum := 0, 0;
      nanosecondsLastFrame := 0;
      dynamicCropBox := None;
      hasScratch, scratchLength := false, 0;
      ticks := new nat[samples](_ => 0);
      cropAndScaleOption := ViroRegionOfInterest;
      requestScale := RequestScale(ViroRegionOfInterest);
      new;
      assert ticks[..] == seq(samples, _ => 0);
      SumZeros(samples);
    }

    /** updateFPS: the new sample replaces the oldest one, the sum follows,
        and the index moves on, wrapping at the window size. */
    method UpdateFPS(newTick: nat)
      requires Valid()
      modifies this`tickSum, this`tickIndex, ticks
      ensures Valid()
      ensures ticks[..] == old(ticks[..])[old(tickIndex) := newTick]
      ensures tickIndex == (old(tickIndex) + 1) % samples
      ensures tickSum == old(tickSum) - old(ticks[tickIndex]) + newTick
    {
      SumUpdate(ticks[..], tickIndex, newTick);
      tickSum := tickSum - ticks[tickIndex];
      tickSum := tickSum + newTick;
      ticks[tickIndex] := newTick;
      tickIndex := tickIndex + 1;
      if tickIndex == samples {
        tickIndex := 0;
      }
    }

    /** getFPS: the inverse of the average frame time in seconds; no finite
        rate while the window sums to 0. */
    function FPS(): (r: Option<real>)
      requires samples > 0
      reads this`tickSum
      ensures r.None? <==> tickSum == 0
      ensures r.Some? ==> r.value * (tickSum as real / samples as real) == 1000000000.0
    {
      if tickSum == 0 then None
      else
        var averageNanos := tickSum as real / samples as real;
        Some(1.0 / (averageNanos / 1000000000.0))
    }

    /** processVisionResults: joints, when the delegate found any, update
        the crop box through deriveBoundsSmooth; the time since the last
        result goes into the frame-rate window. */
    method ProcessVisionResults(joints: seq<Joint>, nanosecondsThisFrame: nat, filter: (Channel, real) -> real,
                                distance: (Vec3, Vec3) -> real)
      requires Valid() && (|joints| == 0 || |joints| == NumJoints)
      modifies this`dynamicCropBox, this`nanosecondsLastFrame, this`tickSum, this`tickIndex, ticks
      ensures Valid()
      ensures dynamicCropBox == if |joints| == 0 then old(dynamicCropBox)
                                else Smoothed(old(dynamicCropBox), Bounds(joints, filter, distance))
      ensures nanosecondsLastFrame == nanosecondsThisFrame
      ensures ticks[..] == old(ticks[..])[old(tickIndex) := Tick(nanosecondsThisFrame, old(nanosecondsLastFrame))]
      ensures tickIndex == (old(tickIndex) + 1) % samples
    {
      if |joints| > 0 {
        var box := DeriveBoundsSmooth(dynamicCropBox, joints, filter, distance);
        dynamicCropBox := box;
      }
      var tick := Tick(nanosecondsThisFrame, nanosecondsLastFrame);
      nanosecondsLastFrame := nanosecondsThisFrame;
      UpdateFPS(tick);
    }

    /** performCropAndPad: the crop rectangle of CropRect, with the
        scratch buffer grown to hold the image when there is a crop box and
        the buffer is missing or too small. */
    method PerformCropAndPad(width: nat, height: nat) returns (x: int, y: int, w: int, h: int)
      modifies this`hasScratch, this`scratchLength
      ensures (x, y, w, h) == CropRect(dynamicCropBox, width, height)
      ensures dynamicCropBox.None? || (old(hasScratch) && old(scratchLength) >= width * height * 4) ==>
        hasScratch == old(hasScratch) && scratchLength == old(scratchLength)
      ensures dynamicCropBox.Some? ==> hasScratch && scratchLength >= width * height * 4
    {
      if dynamicCropBox.None? {
        return 0, 0, width, height;
      }
      var bufferSize := width * height * 4;
      if !hasScratch || scratchLength < bufferSize {
        hasScratch := true;
        scratchLength := bufferSize;
      }
      x, y, w, h := ClampCrop(dynamicCropBox.value, width, height);
    }
  }
}
