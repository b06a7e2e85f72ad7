/** The Java ParticleEmitter class: the Factor enum, the emission bursts
    and their encoding for native code, the three modifier classes with
    their contiguous intervals, the rotation modifier's conversion, and
    the emitter's run state, rates and spawn volume. */
module ParticleEmitterJava {
  import opened Wrappers
  import opened Strings
  import PE = ParticleEmitter
  import J = ParticleEmitterJNI
  import MaterialJNI

  // ---------------------------------------------------------------------------
  // Factor
  // ---------------------------------------------------------------------------

  datatype Factor = Time | Distance

  function FactorString(f: Factor): string
  {
    match f
    case Time => "time"
    case Distance => "distance"
  }

  /** The static map of Factor, keyed by the lower-cased string values. */
  const FactorMap: map<string, Factor> := map["time" := Time, "distance" := Distance]

  /** Factor.valueFromString: a lookup of the lower-cased name. */
  function FactorValueFromString(s: string): Option<Factor>
  {
    if ToLower(s) in FactorMap then Some(FactorMap[ToLower(s)]) else None
  }

  lemma FactorKeys(f: Factor)
    ensures ToLower(FactorString(f)) in FactorMap && FactorMap[ToLower(FactorString(f))] == f
  {
    match f
    case Time => assert ToLower("time") == "time";
    case Distance => assert ToLower("distance") == "distance";
  }

  /** valueFromString finds a factor exactly when the name is its string
      value up to case. */
  lemma FactorValueFromStringIff(s: string, f: Factor)
    ensures FactorValueFromString(s) == Some(f) <==> EqualsIgnoreCase(s, FactorString(f))
  {
    FactorKeys(f);
    ToLowerIff(s, FactorString(f));
    var r := FactorValueFromString(s);
    if r.Some? && r != Some(f) {
      FactorKeys(r.value);
      ToLowerIff(s, FactorString(r.value));
    }
  }

  function NativeFactor(f: Factor): PE.Factor
  {
    match f
    case Time => PE.Time
    case Distance => PE.Distance
  }

  // ---------------------------------------------------------------------------
  // Emission bursts
  // ---------------------------------------------------------------------------

  datatype EmissionBurst = EmissionBurst(factor: Factor, start: real, min: int, max: int, cycles: int, period: real)

  /** Row i of the table setEmissionBursts sends:
      [1 for TIME and 0 otherwise, start, min, max, period, cycles]. */
  function BurstRow(b: EmissionBurst): (row: seq<real>)
    ensures |row| == 6
  {
    [if b.factor == Time then 1.0 else 0.0, b.start, b.min as real, b.max as real, b.period, b.cycles as real]
  }

  /** The table setEmissionBursts sends: null for a null or empty list. */
  function EncodeBursts(bursts: Option<seq<EmissionBurst>>): (rows: Option<seq<seq<real>>>)
    ensures rows.None? <==> bursts.None? || |bursts.value| == 0
    ensures J.WellFormedRows(rows)
  {
    if bursts.None? || |bursts.value| == 0 then None
    else Some(seq(|bursts.value|, i requires 0 <= i < |bursts.value| => BurstRow(bursts.value[i])))
  }

  /** The encoding loop of setEmissionBursts. */
  method EncodeBurstTable(bursts: Option<seq<EmissionBurst>>) returns (rows: Option<seq<seq<real>>>)
    ensures rows == EncodeBursts(bursts)
  {
    if bursts.None? || |bursts.value| == 0 {
      return None;
    }
    var list := bursts.value;
    var table: seq<seq<real>> := [];
    var i := 0;
    while i < |list|
      invariant 0 <= i <= |list|
      invariant |table| == i
      invariant forall k :: 0 <= k < i ==> table[k] == BurstRow(list[k])
    {
      table := table + [BurstRow(list[i])];
      i := i + 1;
    }
    assert table == EncodeBursts(bursts).value;
    rows := Some(table);
  }

  /** The burst the renderer should run for a Java burst. */
  function NativeBurst(b: EmissionBurst): PE.Burst
  {
    PE.Burst(NativeFactor(b.factor), b.start, b.min, b.max, b.period, b.cycles)
  }

  function NativeBursts(bursts: Option<seq<EmissionBurst>>): (bs: seq<PE.Burst>)
    ensures bursts.None? ==> bs == []
    ensures bursts.Some? ==> |bs| == |bursts.value|
  {
    match bursts
    case None => []
    case Some(list) => seq(|list|, i requires 0 <= i < |list| => NativeBurst(list[i]))
  }

  /** The burst table round trip: what the native side decodes from the
      Java encoding is the Java bursts themselves, in order, whatever their
      factor; the counts survive because they are whole numbers. */
  lemma {:induction false} BurstsRoundTrip(bursts: Option<seq<EmissionBurst>>)
    ensures J.DecodeBursts(EncodeBursts(bursts)) == NativeBursts(bursts)
  {
    var decoded, expected := J.DecodeBursts(EncodeBursts(bursts)), NativeBursts(bursts);
    if bursts.Some? && |bursts.value| > 0 {
      var list := bursts.value;
      forall i | 0 <= i < |list|
        ensures decoded[i] == expected[i]
      {
        J.TruncateWhole(list[i].min);
        J.TruncateWhole(list[i].max);
        J.TruncateWhole(list[i].cycles);
      }
    }
  }

  // ---------------------------------------------------------------------------
  // Modifier intervals and rows
  // ---------------------------------------------------------------------------

  /** The intervals [start, end) a modifier has added, as (start, end). */
  type Interval = (real, real)

  /** Each interval starts where the previous one ends, the first at 0. */
  predicate Contiguous(intervals: seq<Interval>)
  {
    forall i :: 0 <= i < |intervals| ==> intervals[i].0 == NextStart(intervals[..i])
  }

  /** Where the next added interval starts: 0, or the end of the last. */
  function NextStart(intervals: seq<Interval>): real
  {
    if |intervals| == 0 then 0.0 else intervals[|intervals| - 1].1
  }

  /** addInterval keeps the intervals contiguous. */
  lemma AppendKeepsContiguous(intervals: seq<Interval>, length: real)
    requires Contiguous(intervals)
    ensures Contiguous(intervals + [(NextStart(intervals), NextStart(intervals) + length)])
  {
    var grown := intervals + [(NextStart(intervals), NextStart(intervals) + length)];
    forall i | 0 <= i < |grown|
      ensures grown[i].0 == NextStart(grown[..i])
    {
      if i < |intervals| {
        assert grown[..i] == intervals[..i];
      } else {
        assert grown[..i] == intervals;
      }
    }
  }

  /** getInterpolatedIntervals: null without intervals, otherwise one
      [start, end] row per interval in the order they were added. */
  function IntervalRows(intervals: seq<Interval>): (r: Option<seq<seq<real>>>)
    ensures r.None? <==> |intervals| == 0
    ensures r.Some? ==> |r.value| == |intervals|
    ensures r.Some? ==> forall i :: 0 <= i < |intervals| ==> r.value[i] == [intervals[i].0, intervals[i].1]
  {
    if |intervals| == 0 then None
    else Some(seq(|intervals|, i requires 0 <= i < |intervals| => [intervals[i].0, intervals[i].1]))
  }

  /** The copying loop of getInterpolatedIntervals. */
  method IntervalArray(intervals: seq<Interval>) returns (r: Option<seq<seq<real>>>)
    ensures r == IntervalRows(intervals)
  {
    if |intervals| == 0 {
      return None;
    }
    var rows: seq<seq<real>> := [];
    var i := 0;
    while i < |intervals|
      invariant 0 <= i <= |intervals|
      invariant |rows| == i
      invariant forall k :: 0 <= k < i ==> rows[k] == [intervals[k].0, intervals[k].1]
    {
      rows := rows + [[intervals[i].0, intervals[i].1]];
      i := i + 1;
    }
    assert rows == IntervalRows(intervals).value;
    r := Some(rows);
  }

  /** getInterpolatedPoints: null without end values, otherwise one row
      per end value, in order, as the modifier's kind writes it. */
  function PointRows<T>(values: seq<T>, row: T -> seq<real>): (r: Option<seq<seq<real>>>)
    ensures r.None? <==> |values| == 0
    ensures r.Some? ==> |r.value| == |values| && forall i :: 0 <= i < |values| ==> r.value[i] == row(values[i])
  {
    if |values| == 0 then None
    else Some(seq(|values|, i requires 0 <= i < |values| => row(values[i])))
  }

  /** The copying loop of getInterpolatedPoints. */
  method PointArray<T>(values: seq<T>, row: T -> seq<real>) returns (r: Option<seq<seq<real>>>)
    ensures r == PointRows(values, row)
  {
    if |values| == 0 {
      return None;
    }
    var rows: seq<seq<real>> := [];
    var i := 0;
    while i < |values|
      invariant 0 <= i <= |values|
      invariant |rows| == i
      invariant forall k :: 0 <= k < i ==> rows[k] == row(values[k])
    {
      rows := rows + [row(values[i])];
      i := i + 1;
    }
    assert rows == PointRows(values, row).value;
    r := Some(rows);
  }

  /** A float end value as a point row: [v, 0, 0]. */
  function FloatPoint(v: real): seq<real>
  {
    [v, 0.0, 0.0]
  }

  /** A colour end value as a point row: the red, green and blue bytes of
      the packed colour. */
  function ColorPoint(c: int): seq<real>
  {
    [MaterialJNI.ColorByte(c, 2) as real, MaterialJNI.ColorByte(c, 1) as real, MaterialJNI.ColorByte(c, 0) as real]
  }

  /** A vector as a row: [x, y, z]. */
  function VectorPoint(v: PE.Vec3): seq<real>
  {
    [v.x, v.y, v.z]
  }

  // ---------------------------------------------------------------------------
  // The modifier classes
  // ---------------------------------------------------------------------------

  /** ParticleModifierFloat. */
  class ModifierFloat {
    var factor: Factor
    var initialMin: real
    var initialMax: real
    var endValues: seq<real>
    var intervals: seq<Interval>

    /** One end value per interval, and the intervals contiguous. */
    predicate Valid()
      reads this`endValues, this`intervals
    {
      |intervals| == |endValues| && Contiguous(intervals)
    }

    constructor (min: real, max: real)
      ensures Valid() && factor == Time && initialMin == min && initialMax == max
      ensures endValues == [] && intervals == []
    {
      factor, initialMin, initialMax := Time, min, max;
      endValues, intervals := [], [];
    }

    method SetFactor(f: Factor)
      modifies this`factor
      ensures factor == f
    {
      factor := f;
    }

    /** addInterval: the new interval starts where the last one ended (at
        0 for the first) and lasts `length`; its end value is `v`. */
    method AddInterval(length: real, v: real)
      requires Valid()
      modifies this`intervals, this`endValues
      ensures Valid()
      ensures intervals == old(intervals) + [(NextStart(old(intervals)), NextStart(old(intervals)) + length)]
      ensures endValues == old(endValues) + [v]
    {
      AppendKeepsContiguous(intervals, length);
      intervals := intervals + [(NextStart(intervals), NextStart(intervals) + length)];
      endValues := endValues + [v];
    }

    /** getInitialRange: [[min, 0, 0], [max, 0, 0]]. */
    function InitialRange(): (r: seq<seq<real>>)
      reads this`initialMin, this`initialMax
      ensures r == [FloatPoint(initialMin), FloatPoint(initialMax)]
    {
      [[initialMin, 0.0, 0.0], [initialMax, 0.0, 0.0]]
    }

    /** The arguments setModifier sends for this modifier. */
    function Args(): J.ModifierArgs
      reads this
    {
      J.ModifierArgs(FactorString(factor), InitialRange(), IntervalRows(intervals), PointRows(endValues, FloatPoint))
    }

    /** What setModifier computes from the getters. */
    method ToArgs() returns (args: J.ModifierArgs)
      ensures args == Args()
    {
      var rows := IntervalArray(intervals);
      var points := PointArray(endValues, FloatPoint);
      args := J.ModifierArgs(FactorString(factor), InitialRange(), rows, points);
    }
  }

  /** ParticleModifierColor: end values are packed colours. */
  class ModifierColor {
    var factor: Factor
    var initialMin: int
    var initialMax: int
    var endValues: seq<int>
    var intervals: seq<Interval>

    predicate Valid()
      reads this`endValues, this`intervals
    {
      |intervals| == |endValues| && Contiguous(intervals)
    }

    constructor (min: int, max: int)
      ensures Valid() && factor == Time && initialMin == min && initialMax == max
      ensures endValues == [] && intervals == []
    {
      factor, initialMin, initialMax := Time, min, max;
      endValues, intervals := [], [];
    }

    method SetFactor(f: Factor)
      modifies this`factor
      ensures factor == f
    {
      factor := f;
    }

    method AddInterval(length: real, v: int)
      requires Valid()
      modifies this`intervals, this`endValues
      ensures Valid()
      ensures intervals == old(intervals) + [(NextStart(old(intervals)), NextStart(old(intervals)) + length)]
      ensures endValues == old(endValues) + [v]
    {
      AppendKeepsContiguous(intervals, length);
      intervals := intervals + [(NextStart(intervals), NextStart(intervals) + length)];
      endValues := endValues + [v];
    }

    /** getInitialRange: the red, green and blue of both bounds. */
    function InitialRange(): seq<seq<real>>
      reads this`initialMin, this`initialMax
    {
      [ColorPoint(initialMin), ColorPoint(initialMax)]
    }

    function Args(): J.ModifierArgs
      reads this
    {
      J.ModifierArgs(FactorString(factor), InitialRange(), IntervalRows(intervals), PointRows(endValues, ColorPoint))
    }

    method ToArgs() returns (args: J.ModifierArgs)
      ensures args == Args()
    {
      var rows := IntervalArray(intervals);
      var points := PointArray(endValues, ColorPoint);
      args := J.ModifierArgs(FactorString(factor), InitialRange(), rows, points);
    }
  }

  /** ParticleModifierVector: end values are vectors. */
  class ModifierVector {
    var factor: Factor
    var initialMin: PE.Vec3
    var initialMax: PE.Vec3
    var endValues: seq<PE.Vec3>
    var intervals: seq<Interval>

    predicate Valid()
      reads this`endValues, this`intervals
    {
      |intervals| == |endValues| && Contiguous(intervals)
    }

    constructor (min: PE.Vec3, max: PE.Vec3)
      ensures Valid() && factor == Time && initialMin == min && initialMax == max
      ensures endValues == [] && intervals == []
    {
      factor, initialMin, initialMax := Time, min, max;
      endValues, intervals := [], [];
    }

    method SetFactor(f: Factor)
      modifies this`factor
      ensures factor == f
    {
      factor := f;
    }

    method AddInterval(length: real, v: PE.Vec3)
      requires Valid()
      modifies this`intervals, this`endValues
      ensures Valid()
      ensures intervals == old(intervals) + [(NextStart(old(intervals)), NextStart(old(intervals)) + length)]
      ensures endValues == old(endValues) + [v]
    {
      AppendKeepsContiguous(intervals, length);
      intervals := intervals + [(NextStart(intervals), NextStart(intervals) + length)];
      endValues := endValues + [v];
    }

    function InitialRange(): seq<seq<real>>
      reads this`initialMin, this`initialMax
    {
      [VectorPoint(initialMin), VectorPoint(initialMax)]
    }

    function Args(): J.ModifierArgs
      reads this
    {
      J.ModifierArgs(FactorString(factor), InitialRange(), IntervalRows(intervals), PointRows(endValues, VectorPoint))
    }

    method ToArgs() returns (args: J.ModifierArgs)
      ensures args == Args()
    {
      var rows := IntervalArray(intervals);
      var points := PointArray(endValues, VectorPoint);
      args := J.ModifierArgs(FactorString(factor), InitialRange(), rows, points);
    }
  }

  /** A float value moved to the z axis. */
  function OnZ(v: real): PE.Vec3
  {
    PE.Vec3(0.0, 0.0, v)
  }

  /** A rotation end value as the point row of the converted modifier. */
  function RotationPoint(v: real): seq<real>
  {
    VectorPoint(OnZ(v))
  }

  /** The interval lengths re-added one by one rebuild contiguous
      intervals exactly. */
  lemma RebuildInterval(intervals: seq<Interval>, i: int)
    requires Contiguous(intervals) && 0 <= i < |intervals|
    ensures (NextStart(intervals[..i]), NextStart(intervals[..i]) + (intervals[i].1 - intervals[i].0)) == intervals[i]
  {
  }

  /** The conversion setRotationModifier makes: a vector modifier with the
      bounds on the z axis, the same intervals rebuilt from their lengths,
      the end values on the z axis and the factor copied. */
  method RotationAsVector(m: ModifierFloat) returns (v: ModifierVector)
    requires m.Valid()
    ensures fresh(v) && v.Valid()
    ensures v.factor == m.factor && v.initialMin == OnZ(m.initialMin) && v.initialMax == OnZ(m.initialMax)
    ensures v.intervals == m.intervals
    ensures |v.endValues| == |m.endValues| && forall i :: 0 <= i < |m.endValues| ==> v.endValues[i] == OnZ(m.endValues[i])
  {
    var range := m.InitialRange();
    v := new ModifierVector(OnZ(range[0][0]), OnZ(range[1][0]));
    var intervals := m.intervals;
    var i := 0;
    while i < |intervals|
      invariant 0 <= i <= |intervals|
      invariant v.Valid()
      invariant v.intervals == intervals[..i]
      invariant |v.endValues| == i && forall k :: 0 <= k < i ==> v.endValues[k] == OnZ(m.endValues[k])
      invariant v.initialMin == OnZ(m.initialMin) && v.initialMax == OnZ(m.initialMax) && v.factor == Time
    {
      RebuildInterval(intervals, i);
      v.AddInterval(intervals[i].1 - intervals[i].0, OnZ(m.endValues[i]));
      assert intervals[..i + 1] == intervals[..i] + [intervals[i]];
      i := i + 1;
    }
    assert intervals[..i] == intervals;
    v.SetFactor(m.factor);
  }

  // ---------------------------------------------------------------------------
  // Spawn volumes
  // ---------------------------------------------------------------------------

  datatype SpawnVolume = VolumePoint(point: PE.Vec3) | VolumeBox(width: real, height: real, length: real)
                       | VolumeSphere(radius: real) | VolumeEllipsoid(rx: real, ry: real, rz: real)

  /** getName of each volume; the ellipsoid reports the sphere's name and
      is told apart by its three parameters. */
  function VolumeName(v: SpawnVolume): string
  {
    match v
    case VolumePoint(_) => "Point"
    case VolumeBox(_, _, _) => "Box"
    case VolumeSphere(_) => "Sphere"
    case VolumeEllipsoid(_, _, _) => "Sphere"
  }

  /** getParams of each volume. */
  function VolumeParams(v: SpawnVolume): seq<real>
  {
    match v
    case VolumePoint(p) => VectorPoint(p)
    case VolumeBox(w, h, l) => [w, h, l]
    case VolumeSphere(r) => [r]
    case VolumeEllipsoid(x, y, z) => [x, y, z]
  }

  // ---------------------------------------------------------------------------
  // The emitter
  // ---------------------------------------------------------------------------

  class Emitter {
    var native: J.NativeEmitter
    var delay: int
    var duration: int
    var loop: bool
    var running: bool
    var fixedToEmitter: bool
    var ratePerSecondMin: int
    var ratePerSecondMax: int
    var ratePerMeterMin: int
    var ratePerMeterMax: int
    var lifetimeMin: int
    var lifetimeMax: int
    var maxParticles: int
    var bursts: Option<seq<EmissionBurst>>
    var spawnVolume: SpawnVolume
    var spawnOnSurface: bool
    var blendMode: MaterialJNI.BlendMode
    var bloomThreshold: real

    /** The field defaults of the class. */
    constructor (n: J.NativeEmitter)
      ensures native == n
      ensures delay == 0 && duration == 2000 && loop && !running && fixedToEmitter
      ensures ratePerSecondMin == 10 && ratePerSecondMax == 10 && ratePerMeterMin == 0 && ratePerMeterMax == 0
      ensures lifetimeMin == 2000 && lifetimeMax == 2000 && maxParticles == 500
      ensures bursts == Some([]) && spawnVolume == VolumePoint(PE.Vec3(0.0, 0.0, 0.0)) && spawnOnSurface
      ensures blendMode == MaterialJNI.Alpha && bloomThreshold == -1.0
    {
      native := n;
      delay, duration, loop, running, fixedToEmitter := 0, 2000, true, false, true;
      ratePerSecondMin, ratePerSecondMax, ratePerMeterMin, ratePerMeterMax := 10, 10, 0, 0;
      lifetimeMin, lifetimeMax, maxParticles := 2000, 2000, 500;
      bursts := Some([]);
      spawnVolume := VolumePoint(PE.Vec3(0.0, 0.0, 0.0));
      spawnOnSurface := true;
      blendMode := MaterialJNI.Alpha;
      bloomThreshold := -1.0;
    }

    /** isPaused. */
    predicate IsPaused()
      reads this`running
    {
      !running
    }

    method Run()
      modifies this`running
      ensures !IsPaused()
    {
      running := true;
    }

    method Pause()
      modifies this`running
      ensures IsPaused()
    {
      running := false;
    }

    /** setEmissionRatePerSecond: the getter's fields and the renderer's
        per-second range both take the new range. */
    method SetEmissionRatePerSecond(min: int, max: int)
      modifies this`ratePerSecondMin, this`ratePerSecondMax, native`ratePerSecond
      ensures EmissionRatePerSecond() == (min, max)
      ensures native.ratePerSecond == EmissionRatePerSecond()
    {
      ratePerSecondMin, ratePerSecondMax := min, max;
      native.SetEmissionRatePerSecond(min, max);
    }

    function EmissionRatePerSecond(): (int, int)
      reads this`ratePerSecondMin, this`ratePerSecondMax
    {
      (ratePerSecondMin, ratePerSecondMax)
    }

    /** setEmissionRatePerMeter: the per-meter fields and the renderer's
        per-distance range both take the new range. */
    method SetEmissionRatePerMeter(min: int, max: int)
      modifies this`ratePerMeterMin, this`ratePerMeterMax, native`ratePerDistance
      ensures EmissionRatePerMeter() == (min, max)
      ensures native.ratePerDistance == EmissionRatePerMeter()
    {
      ratePerMeterMin, ratePerMeterMax := min, max;
      native.SetEmissionRatePerMeter(min, max);
    }

    /** getEmissionRatePerMeter as written: it returns the per-second
        fields. */
    function EmissionRatePerMeterAsWritten(): (r: (int, int))
      reads this`ratePerSecondMin, this`ratePerSecondMax
      ensures r == EmissionRatePerSecond()
    {
      (ratePerSecondMin, ratePerSecondMax)
    }

    /** getEmissionRatePerMeter reading the per-meter fields. */
    function EmissionRatePerMeter(): (r: (int, int))
      reads this`ratePerMeterMin, this`ratePerMeterMax
    {
      (ratePerMeterMin, ratePerMeterMax)
    }

    /** setEmissionBursts: the list is kept, and the native side receives
        exactly these bursts, in order (none for a null or empty list). */
    method SetEmissionBursts(list: Option<seq<EmissionBurst>>)
      modifies this`bursts, native`bursts
      ensures bursts == list
      ensures native.bursts == NativeBursts(list)
    {
      bursts := list;
      var rows := EncodeBurstTable(list);
      native.SetParticleBursts(rows);
      BurstsRoundTrip(list);
    }

    /** setSpawnVolume as written: only the native side learns the volume;
        the fields the getters read keep their old values. */
    method SetSpawnVolumeAsWritten(volume: SpawnVolume, onSurface: bool, shapeForString: string -> J.Shape)
      modifies native`spawnVolume
      ensures native.spawnVolume == J.SpawnVolume(shapeForString(VolumeName(volume)), VolumeParams(volume), onSurface)
    {
      native.SetSpawnVolume(VolumeName(volume), Some(VolumeParams(volume)), onSurface, shapeForString);
    }

    /** setSpawnVolume recording the volume for its getters as well. */
    method SetSpawnVolume(volume: SpawnVolume, onSurface: bool, shapeForString: string -> J.Shape)
      modifies this`spawnVolume, this`spawnOnSurface, native`spawnVolume
      ensures spawnVolume == volume && spawnOnSurface == onSurface
      ensures native.spawnVolume == J.SpawnVolume(shapeForString(VolumeName(volume)), VolumeParams(volume), onSurface)
    {
      spawnVolume, spawnOnSurface := volume, onSurface;
      native.SetSpawnVolume(VolumeName(volume), Some(VolumeParams(volume)), onSurface, shapeForString);
    }

    /** setBlendMode: the field takes the mode and its name goes to the
        native side, which ignores None. */
    method SetBlendMode(mode: MaterialJNI.BlendMode, blendModeFromString: string -> MaterialJNI.BlendMode)
      modifies this`blendMode, native`blendMode
      ensures blendMode == mode
      ensures blendModeFromString(MaterialJNI.BlendModeName(mode)) != MaterialJNI.BlendMode.None ==>
        native.blendMode == blendModeFromString(MaterialJNI.BlendModeName(mode))
      ensures blendModeFromString(MaterialJNI.BlendModeName(mode)) == MaterialJNI.BlendMode.None ==>
        native.blendMode == old(native.blendMode)
    {
      blendMode := mode;
      var _ := native.SetParticleBlendMode(MaterialJNI.BlendModeName(mode), blendModeFromString);
    }

    /** setOpacityModifier: the native alpha modifier. */
    method SetOpacityModifier(m: ModifierFloat)
      modifies native`modifiers
      ensures native.modifiers == old(native.modifiers)[J.Alpha := m.Args()]
    {
      var args := m.ToArgs();
      J.ParseModifierTargetIff("opacity", J.Alpha);
      native.SetParticleModifier("opacity", args);
    }

    /** setScaleModifier. */
    method SetScaleModifier(m: ModifierVector)
      modifies native`modifiers
      ensures native.modifiers == old(native.modifiers)[J.Scale := m.Args()]
    {
      var args := m.ToArgs();
      J.ParseModifierTargetIff("scale", J.Scale);
      native.SetParticleModifier("scale", args);
    }

    /** setColorModifier. */
    method SetColorModifier(m: ModifierColor)
      modifies native`modifiers
      ensures native.modifiers == old(native.modifiers)[J.Color := m.Args()]
    {
      var args := m.ToArgs();
      J.ParseModifierTargetIff("color", J.Color);
      native.SetParticleModifier("color", args);
    }

    /** setVelocityModifier. */
    method SetVelocityModifier(m: ModifierVector)
      modifies native`modifiers
      ensures native.modifiers == old(native.modifiers)[J.Velocity := m.Args()]
    {
      var args := m.ToArgs();
      J.ParseModifierTargetIff("velocity", J.Velocity);
      native.SetParticleModifier("velocity", args);
    }

    /** setAccelerationModifier. */
    method SetAccelerationModifier(m: ModifierVector)
      modifies native`modifiers
      ensures native.modifiers == old(native.modifiers)[J.Acceleration := m.Args()]
    {
      var args := m.ToArgs();
      J.ParseModifierTargetIff("acceleration", J.Acceleration);
      native.SetParticleModifier("acceleration", args);
    }

    /** setRotationModifier as written: the interval array of a modifier
        without intervals is null, and taking its length throws a
        NullPointerException before anything reaches native code. */
    method SetRotationModifierAsWritten(m: ModifierFloat) returns (thrown: bool)
      requires m.Valid()
      modifies native`modifiers
      ensures thrown <==> |m.intervals| == 0
      ensures thrown ==> native.modifiers == old(native.modifiers)
      ensures !thrown ==> J.Rotation in native.modifiers && native.modifiers[J.Rotation].intervals == IntervalRows(m.intervals)
    {
      var intervals := IntervalArray(m.intervals);
      if intervals.None? {
        return true;
      }
      SetRotationModifier(m);
      return false;
    }

    /** setRotationModifier treating a modifier without intervals as one
        with no intervals to copy: the renderer gets the converted vector
        modifier, with the rotation on the z axis and the same intervals. */
    method SetRotationModifier(m: ModifierFloat)
      requires m.Valid()
      modifies native`modifiers
      ensures J.Rotation in native.modifiers
      ensures native.modifiers[J.Rotation].factor == FactorString(m.factor)
      ensures native.modifiers[J.Rotation].initialRange == [VectorPoint(OnZ(m.initialMin)), VectorPoint(OnZ(m.initialMax))]
      ensures native.modifiers[J.Rotation].intervals == IntervalRows(m.intervals)
      ensures native.modifiers[J.Rotation].points == PointRows(m.endValues, RotationPoint)
      ensures forall t :: t != J.Rotation ==>
        ((t in native.modifiers <==> t in old(native.modifiers)) &&
         (t in native.modifiers ==> native.modifiers[t] == old(native.modifiers)[t]))
    {
      var v := RotationAsVector(m);
      var args := v.ToArgs();
      if |m.endValues| > 0 {
        assert PointRows(v.endValues, VectorPoint).value == PointRows(m.endValues, RotationPoint).value;
      }
      J.ParseModifierTargetIff("rotation", J.Rotation);
      native.SetParticleModifier("rotation", args);
    }
  }

  /** The rate getter as written disagrees with the setter whenever the
      per-meter rate differs from the per-second one, as it does after
      the defaults (0 per meter, 10 per second). */
  lemma RatePerMeterAsWrittenIsPerSecond(e: Emitter)
    requires (e.ratePerMeterMin, e.ratePerMeterMax) != (e.ratePerSecondMin, e.ratePerSecondMax)
    ensures e.EmissionRatePerMeterAsWritten() != e.EmissionRatePerMeter()
  {
  }
}
