/** The particle-emitter bridge on the native side: decoding the burst
    table the Java side sends, choosing the modifier a name targets, the
    blend-mode check and the spawn volume. The renderer's emitter setters
    are declared in a header that is not part of this model, so the
    settings each bridge call hands over are kept in one object. */
module ParticleEmitterJNI {
  import opened Wrappers
  import opened Strings
  import PE = ParticleEmitter
  import MaterialJNI

  // ---------------------------------------------------------------------------
  // Bursts
  // ---------------------------------------------------------------------------

  /** A C++ conversion of a double to int: the fraction is dropped, so the
      value moves toward zero. */
  function TruncateToInt(x: real): (n: int)
    ensures 0.0 <= x ==> n as real <= x < n as real + 1.0
    ensures x < 0.0 ==> n as real - 1.0 < x <= n as real
  {
    if x >= 0.0 then x.Floor else -((-x).Floor)
  }

  lemma TruncateWhole(n: int)
    ensures TruncateToInt(n as real) == n
  {
  }

  /** One row [factor, start, min, max, period, cycles]: a factor of exactly
      1 is Time and anything else Distance; the counts are truncated. */
  function DecodeBurst(row: seq<real>): (b: PE.Burst)
    requires |row| >= 6
    ensures b.factor == PE.Time <==> row[0] == 1.0
    ensures b.start == row[1] && b.interval == row[4]
    ensures b.min == TruncateToInt(row[2]) && b.max == TruncateToInt(row[3]) && b.cycles == TruncateToInt(row[5])
  {
    PE.Burst(if row[0] == 1.0 then PE.Time else PE.Distance, row[1],
             TruncateToInt(row[2]), TruncateToInt(row[3]), row[4], TruncateToInt(row[5]))
  }

  predicate WellFormedRows(rows: Option<seq<seq<real>>>)
  {
    rows.Some? ==> forall i :: 0 <= i < |rows.value| ==> |rows.value[i]| >= 6
  }

  /** The burst list nativeSetParticleBursts hands to the emitter: empty for
      a null table, otherwise one burst per row, in row order. */
  function DecodeBursts(rows: Option<seq<seq<real>>>): (bs: seq<PE.Burst>)
    requires WellFormedRows(rows)
    ensures rows.None? ==> bs == []
    ensures rows.Some? ==> |bs| == |rows.value| && forall i :: 0 <= i < |bs| ==> bs[i] == DecodeBurst(rows.value[i])
  {
    match rows
    case None => []
    case Some(table) => seq(|table|, i requires 0 <= i < |table| => DecodeBurst(table[i]))
  }

  /** The decoding loop of nativeSetParticleBursts. */
  method DecodeBurstTable(rows: Option<seq<seq<real>>>) returns (bs: seq<PE.Burst>)
    requires WellFormedRows(rows)
    ensures bs == DecodeBursts(rows)
  {
    bs := [];
    if rows.Some? {
      var table := rows.value;
      var i := 0;
      while i < |table|
        invariant 0 <= i <= |table|
        invariant |bs| == i
        invariant forall k :: 0 <= k < i ==> bs[k] == DecodeBurst(table[k])
      {
        bs := bs + [DecodeBurst(table[i])];
        i := i + 1;
      }
    }
  }

  // ---------------------------------------------------------------------------
  // Modifiers
  // ---------------------------------------------------------------------------

  /** The emitter properties a modifier can drive. */
  datatype ModifierTarget = Alpha | Scale | Rotation | Color | Velocity | Acceleration

  /** The name, compared ignoring case, that selects each target. */
  function ModifierTargetName(t: ModifierTarget): string
  {
    match t
    case Alpha => "opacity"
    case Scale => "scale"
    case Rotation => "rotation"
    case Color => "color"
    case Velocity => "velocity"
    case Acceleration => "acceleration"
  }

  /** The dispatch of nativeSetParticleModifier. */
  function ParseModifierTarget(name: string): (r: Option<ModifierTarget>)
    ensures r.Some? ==> EqualsIgnoreCase(name, ModifierTargetName(r.value))
    ensures r.None? ==> forall t :: !EqualsIgnoreCase(name, ModifierTargetName(t))
  {
    if EqualsIgnoreCase(name, "opacity") then Some(Alpha)
    else if EqualsIgnoreCase(name, "scale") then Some(Scale)
    else if EqualsIgnoreCase(name, "rotation") then Some(Rotation)
    else if EqualsIgnoreCase(name, "color") then Some(Color)
    else if EqualsIgnoreCase(name, "velocity") then Some(Velocity)
    else if EqualsIgnoreCase(name, "acceleration") then Some(Acceleration)
    else None
  }

  lemma ModifierTargetNamesDistinct(t: ModifierTarget, u: ModifierTarget)
    requires t != u
    ensures !EqualsIgnoreCase(ModifierTargetName(t), ModifierTargetName(u))
  {
  }

  /** A name selects a target exactly when it is that target's name up to
      case. */
  lemma ParseModifierTargetIff(name: string, t: ModifierTarget)
    ensures ParseModifierTarget(name) == Some(t) <==> EqualsIgnoreCase(name, ModifierTargetName(t))
  {
    var r := ParseModifierTarget(name);
    if EqualsIgnoreCase(name, ModifierTargetName(t)) && r != Some(t) {
      SameNameIgnoringCase(name, ModifierTargetName(r.value), ModifierTargetName(t));
      ModifierTargetNamesDistinct(r.value, t);
    }
  }

  /** The arguments of a modifier as they cross the bridge: the factor's
      name, the initial range rows, and the interval and point rows (null
      when there are none). The renderer builds its modifier from these. */
  datatype ModifierArgs = ModifierArgs(factor: string, initialRange: seq<seq<real>>,
                                       intervals: Option<seq<seq<real>>>, points: Option<seq<seq<real>>>)

  // ---------------------------------------------------------------------------
  // Spawn volume
  // ---------------------------------------------------------------------------

  /** The spawn-volume shapes; the parser from names is the renderer's. */
  datatype Shape = Point | Box | Sphere | Surface

  datatype SpawnVolume = SpawnVolume(shape: Shape, params: seq<real>, spawnOnSurface: bool)

  /** The parameter copy of nativeSetSpawnVolume. */
  method CopyParams(params: Option<seq<real>>) returns (r: seq<real>)
    ensures params.None? ==> r == []
    ensures params.Some? ==> r == params.value
  {
    r := [];
    if params.Some? {
      var values := params.value;
      var i := 0;
      while i < |values|
        invariant 0 <= i <= |values|
        invariant r == values[..i]
      {
        r := r + [values[i]];
        i := i + 1;
      }
      assert values[..i] == values;
    }
  }

  // ---------------------------------------------------------------------------
  // The emitter's settings
  // ---------------------------------------------------------------------------

  /** The settings the bridge hands to the renderer's emitter. */
  class NativeEmitter {
    var bursts: seq<PE.Burst>
    var modifiers: map<ModifierTarget, ModifierArgs>
    var blendMode: MaterialJNI.BlendMode
    var spawnVolume: SpawnVolume
    var ratePerSecond: (int, int)
    var ratePerDistance: (int, int)

    /** nativeCreateEmitter: the renderer's emitter starts with no bursts
        and no modifiers; its initial blend mode, spawn volume and rates are
        parameters, because the renderer's default constructor is not part of
        this model. */
    constructor (initialBlend: MaterialJNI.BlendMode, initialVolume: SpawnVolume,
                 initialPerSecond: (int, int), initialPerDistance: (int, int))
      ensures bursts == [] && modifiers == map[] && blendMode == initialBlend && spawnVolume == initialVolume
      ensures ratePerSecond == initialPerSecond && ratePerDistance == initialPerDistance
    {
      bursts := [];
      modifiers := map[];
      blendMode := initialBlend;
      spawnVolume := initialVolume;
      ratePerSecond := initialPerSecond;
      ratePerDistance := initialPerDistance;
    }

    /** nativeSetEmissionRatePerSecond: the renderer's per-second range
        becomes the pair of ints sent. */
    method SetEmissionRatePerSecond(min: int, max: int)
      modifies this`ratePerSecond
      ensures ratePerSecond == (min, max)
    {
      ratePerSecond := (min, max);
    }

    /** nativeSetEmissionRatePerMeter: the renderer's per-distance range
        becomes the pair of ints sent. */
    method SetEmissionRatePerMeter(min: int, max: int)
      modifies this`ratePerDistance
      ensures ratePerDistance == (min, max)
    {
      ratePerDistance := (min, max);
    }

    /** nativeSetParticleBursts. */
    method SetParticleBursts(rows: Option<seq<seq<real>>>)
      requires WellFormedRows(rows)
      modifies this`bursts
      ensures bursts == DecodeBursts(rows)
    {
      bursts := DecodeBurstTable(rows);
    }

    /** nativeSetParticleModifier: the named target takes the modifier; an
        unknown name changes nothing. */
    method SetParticleModifier(name: string, args: ModifierArgs)
      modifies this`modifiers
      ensures ParseModifierTarget(name).None? ==> modifiers == old(modifiers)
      ensures ParseModifierTarget(name).Some? ==> modifiers == old(modifiers)[ParseModifierTarget(name).value := args]
    {
      var target := ParseModifierTarget(name);
      if target.Some? {
        modifiers := modifiers[target.value := args];
      }
    }

    /** nativeSetParticleBlendMode: a name the renderer reads as None is
        refused with false and nothing is dispatched; any other mode is set
        and true returned. */
    method SetParticleBlendMode(name: string, blendModeFromString: string -> MaterialJNI.BlendMode)
      returns (accepted: bool)
      modifies this`blendMode
      ensures accepted <==> blendModeFromString(name) != MaterialJNI.BlendMode.None
      ensures accepted ==> blendMode == blendModeFromString(name)
      ensures !accepted ==> blendMode == old(blendMode)
    {
      var mode := blendModeFromString(name);
      if mode == MaterialJNI.BlendMode.None {
        return false;
      }
      blendMode := mode;
      return true;
    }

    /** nativeSetSpawnVolume: the shape parsed by the renderer, the
        parameters in order (none for a null array) and the surface flag. */
    method SetSpawnVolume(shapeName: string, params: Option<seq<real>>, onSurface: bool, shapeForString: string -> Shape)
      modifies this`spawnVolume
      ensures spawnVolume.shape == shapeForString(shapeName) && spawnVolume.spawnOnSurface == onSurface
      ensures spawnVolume.params == (if params.Some? then params.value else [])
    {
      var copied := CopyParams(params);
      spawnVolume := SpawnVolume(shapeForString(shapeName), copied, onSurface);
    }
  }
}
