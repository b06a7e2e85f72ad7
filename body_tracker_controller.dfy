/** The body tracker controller (VROBodyTrackerController). It filters the
    joints the pose model reports, caches them per joint type, evicts stale
    ones, derives a tracked state, restores briefly missing joints from
    their last offset to the neck, and keeps a time window of positions per
    joint for dampening.

    Every projected transform the controller builds is the identity plus a
    translation (unprojection onto the body plane), so a joint's transform
    is kept here as that translation. Camera unprojection, the window depth
    test, the parent-bone reachability test and the moving average are
    parameters of the operations that use them. */
module BodyTrackerController {
  import opened Wrappers
  import opened BodyJoints

  const Origin: Vec3 := Vec3(0.0, 0.0, 0.0)

  function Add(a: Vec3, b: Vec3): Vec3
  {
    Vec3(a.x + b.x, a.y + b.y, a.z + b.z)
  }

  function Sub(a: Vec3, b: Vec3): Vec3
  {
    Vec3(a.x - b.x, a.y - b.y, a.z - b.z)
  }

  function SquaredDistance(a: Vec3, b: Vec3): real
  {
    (a.x - b.x) * (a.x - b.x) + (a.y - b.y) * (a.y - b.y) + (a.z - b.z) * (a.z - b.z)
  }

  // ---------------------------------------------------------------------
  // VROBodyJoint: a value, copied into and out of the controller's maps
  // ---------------------------------------------------------------------

  datatype BodyJoint = BodyJoint(
    jointType: JointType,
    confidence: real,
    screenCoords: Vec3,
    translation: Vec3,
    hasValidTransform: bool,
    spawnTimeMs: real)

  /** The joint's projected position, when it has a valid one. */
  function Projection(j: BodyJoint): Option<Vec3>
  {
    if j.hasValidTransform then Some(j.translation) else None
  }

  /** Two joints that differ at most in their projected transform. */
  predicate SameReading(a: BodyJoint, b: BodyJoint)
  {
    a.jointType == b.jointType && a.confidence == b.confidence &&
    a.screenCoords == b.screenCoords && a.spawnTimeMs == b.spawnTimeMs
  }

  /** VROBodyJoint(type, confidence), with the screen coordinates and the
      spawn time onBodyJointsFound stores right after constructing it. */
  function NewJoint(t: JointType, confidence: real, screenCoords: Vec3, spawnTimeMs: real): (j: BodyJoint)
    ensures j.jointType == t && j.confidence == confidence
    ensures j.screenCoords == screenCoords && j.spawnTimeMs == spawnTimeMs
    ensures j.translation == Origin && Projection(j) == None
  {
    BodyJoint(t, confidence, screenCoords, Origin, false, spawnTimeMs)
  }

  /** setProjectedTransform: stores the transform and marks it valid. */
  function SetProjectedTransform(j: BodyJoint, p: Vec3): (r: BodyJoint)
    ensures Projection(r) == Some(p)
    ensures SameReading(r, j)
  {
    j.(translation := p, hasValidTransform := true)
  }

  /** clearPojectedTransform: back to the identity, marked invalid. */
  function ClearProjectedTransform(j: BodyJoint): (r: BodyJoint)
    ensures Projection(r) == None && r.translation == Origin
    ensures SameReading(r, j)
  {
    j.(translation := Origin, hasValidTransform := false)
  }

  /** Clearing discards whatever transform was set before. */
  lemma ClearUndoesSet(j: BodyJoint, p: Vec3)
    ensures ClearProjectedTransform(SetProjectedTransform(j, p)) == ClearProjectedTransform(j)
  {
  }

  /** Setting a transform does not depend on what was there before. */
  lemma SetOverridesClear(j: BodyJoint, p: Vec3)
    ensures SetProjectedTransform(ClearProjectedTransform(j), p) == SetProjectedTransform(j, p)
  {
  }

  // ---------------------------------------------------------------------
  // Constants of the controller
  // ---------------------------------------------------------------------

  const HighConfidence: real := 0.45
  const VolatilityThresholdMeters: real := 0.15
  const InitialDampeningPeriodMs: real := 250.0

  /** kRequiredJoints: the joints basic tracking needs (scale and root
      motion). The first one is the root the offsets are measured from. */
  const RequiredJoints: seq<JointType> := [Neck, RightHip, LeftHip]

  predicate HasRequiredJoints(keys: set<JointType>)
  {
    forall i :: 0 <= i < |RequiredJoints| ==> RequiredJoints[i] in keys
  }

  /** The stale time of a joint type, as bindModel fills _mlJointTimeoutMap:
      800 ms for the neck, 500 ms for the thirteen other tracked joints. The
      pelvis has no entry, and reading the map with operator[] yields 0. */
  function TimeoutMs(t: JointType): (ms: real)
    ensures ms == 0.0 <==> t == Pelvis
    ensures t == Neck ==> ms == 800.0
    ensures t != Neck && t != Pelvis ==> ms == 500.0
  {
    match t
    case Neck => 800.0
    case Pelvis => 0.0
    case _ => 500.0
  }

  /** The loop over kRequiredJoints that stops at the first missing one. */
  method CheckRequiredJoints(keys: set<JointType>) returns (found: bool)
    ensures found <==> HasRequiredJoints(keys)
    ensures found ==> Neck in keys
  {
    found := true;
    var i := 0;
    while i < |RequiredJoints|
      invariant 0 <= i <= |RequiredJoints|
      invariant found <==> forall k :: 0 <= k < i ==> RequiredJoints[k] in keys
      invariant !found ==> i == |RequiredJoints|
    {
      if RequiredJoints[i] !in keys {
        found := false;
        i := |RequiredJoints|;
      } else {
        i := i + 1;
      }
    }
    if found {
      assert RequiredJoints[0] in keys;
    }
  }

  // ---------------------------------------------------------------------
  // bindModel: which joints the model's skeleton has bones for
  // ---------------------------------------------------------------------

  /** _mlJointForBoneIndex after the loop over kVROBodyBoneTags: every joint
      whose bone name the skeleton knows, mapped to that bone's index. The
      table itself (boneTags) and the skeleton (bones, by name) are inputs. */
  function BoundJoints(boneTags: map<JointType, string>, bones: map<string, nat>): (r: map<JointType, nat>)
    ensures forall t :: t in r <==> t in boneTags && boneTags[t] in bones
    ensures forall t :: t in r ==> r[t] == bones[boneTags[t]]
  {
    map t | t in boneTags && boneTags[t] in bones :: bones[boneTags[t]]
  }

  method BindJoints(boneTags: map<JointType, string>, bones: map<string, nat>) returns (r: map<JointType, nat>)
    ensures r == BoundJoints(boneTags, bones)
  {
    r := map[];
    var rest := boneTags.Keys;
    while rest != {}
      invariant rest <= boneTags.Keys
      invariant forall t :: t in r <==> t in boneTags && t !in rest && boneTags[t] in bones
      invariant forall t :: t in r ==> r[t] == bones[boneTags[t]]
      decreases |rest|
    {
      var t :| t in rest;
      if boneTags[t] in bones {
        r := r[t := bones[boneTags[t]]];
      }
      rest := rest - {t};
    }
  }

  // ---------------------------------------------------------------------
  // processJoints, step 1: the confidence filter
  // ---------------------------------------------------------------------

  /** The joints reported with a confidence above kHighConfidence. */
  function Confident(joints: map<JointType, BodyJoint>): map<JointType, BodyJoint>
  {
    map t | t in joints && joints[t].confidence > HighConfidence :: joints[t]
  }

  method FilterConfident(joints: map<JointType, BodyJoint>) returns (latest: map<JointType, BodyJoint>)
    ensures latest == Confident(joints)
  {
    latest := map[];
    var rest := joints.Keys;
    while rest != {}
      invariant rest <= joints.Keys
      invariant forall t :: t in latest <==> t in joints && t !in rest && joints[t].confidence > HighConfidence
      invariant forall t :: t in latest ==> latest[t] == joints[t]
      decreases |rest|
    {
      var t :| t in rest;
      if joints[t].confidence > HighConfidence {
        latest := latest[t := joints[t]];
      }
      rest := rest - {t};
    }
  }

  // ---------------------------------------------------------------------
  // processJoints, step 2: projectJointsInto3DSpace
  // ---------------------------------------------------------------------

  /** One joint after the unprojection of its screen point: the hit point
      when there is one, a cleared transform otherwise. */
  function Placed(j: BodyJoint, unproject: Vec3 -> Option<Vec3>): (r: BodyJoint)
    ensures Projection(r) == unproject(j.screenCoords) && SameReading(r, j)
  {
    match unproject(j.screenCoords)
    case Some(p) => SetProjectedTransform(j, p)
    case None => ClearProjectedTransform(j)
  }

  function PlacedAll(latest: map<JointType, BodyJoint>, unproject: Vec3 -> Option<Vec3>): map<JointType, BodyJoint>
  {
    map t | t in latest :: Placed(latest[t], unproject)
  }

  function ValidOnly(joints: map<JointType, BodyJoint>): map<JointType, BodyJoint>
  {
    map t | t in joints && joints[t].hasValidTransform :: joints[t]
  }

  /** The joints left after projection. While calibrating, a frame without
      the neck is returned as it is, and a failed depth test around the neck
      empties it; joints are unprojected while calibrating or once a
      calibrated configuration exists; then every joint without a valid
      transform is dropped. */
  function Projected(latest: map<JointType, BodyJoint>, calibrating: bool, configured: bool,
                     depthTestPasses: bool, unproject: Vec3 -> Option<Vec3>): map<JointType, BodyJoint>
  {
    if calibrating && Neck !in latest then latest
    else if calibrating && !depthTestPasses then map[]
    else if calibrating || configured then ValidOnly(PlacedAll(latest, unproject))
    else ValidOnly(latest)
  }

  /** Projection keeps each joint's reading and only ever drops joints;
      once it unprojects, exactly the joints with a hit point survive, at
      that point. */
  lemma ProjectedFacts(latest: map<JointType, BodyJoint>, calibrating: bool, configured: bool,
                       depthTestPasses: bool, unproject: Vec3 -> Option<Vec3>)
    ensures var r := Projected(latest, calibrating, configured, depthTestPasses, unproject);
            (calibrating && Neck !in latest ==> r == latest) &&
            (calibrating && Neck in latest && !depthTestPasses ==> r == map[]) &&
            (!(calibrating && Neck !in latest) ==>
               forall t :: t in r ==> t in latest && Projection(r[t]).Some? && SameReading(r[t], latest[t])) &&
            ((calibrating && Neck in latest && depthTestPasses) || (!calibrating && configured) ==>
               (forall t :: t in r <==> t in latest && unproject(latest[t].screenCoords).Some?) &&
               (forall t :: t in r ==> Projection(r[t]) == unproject(latest[t].screenCoords))) &&
            (!calibrating && !configured ==> r == ValidOnly(latest))
  {
  }

  /** Joints the pose model just reported carry no transform, so without
      calibration or a calibrated configuration none of them survives. */
  lemma UncalibratedFrameIsDropped(latest: map<JointType, BodyJoint>, depthTestPasses: bool,
                                   unproject: Vec3 -> Option<Vec3>)
    requires forall t :: t in latest ==> !latest[t].hasValidTransform
    ensures Projected(latest, false, false, depthTestPasses, unproject) == map[]
  {
  }

  method PlaceJoints(latest: map<JointType, BodyJoint>, unproject: Vec3 -> Option<Vec3>)
    returns (r: map<JointType, BodyJoint>)
    ensures r == PlacedAll(latest, unproject)
  {
    r := latest;
    var rest := latest.Keys;
    while rest != {}
      invariant rest <= latest.Keys
      invariant forall t :: t in r <==> t in latest
      invariant forall t :: t in r ==> r[t] == if t in rest then latest[t] else Placed(latest[t], unproject)
      decreases |rest|
    {
      var t :| t in rest;
      var j := r[t];
      match unproject(j.screenCoords) {
        case Some(p) => j := SetProjectedTransform(j, p);
        case None => j := ClearProjectedTransform(j);
      }
      r := r[t := j];
      rest := rest - {t};
    }
  }

  method RemoveInvalid(joints: map<JointType, BodyJoint>) returns (r: map<JointType, BodyJoint>)
    ensures r == ValidOnly(joints)
  {
    r := joints;
    var rest := joints.Keys;
    while rest != {}
      invariant rest <= joints.Keys
      invariant forall t :: t in r <==> t in joints && (t in rest || joints[t].hasValidTransform)
      invariant forall t :: t in r ==> r[t] == joints[t]
      decreases |rest|
    {
      var t :| t in rest;
      if !r[t].hasValidTransform {
        r := r - {t};
      }
      rest := rest - {t};
    }
  }

  method ProjectJoints(latest: map<JointType, BodyJoint>, calibrating: bool, configured: bool,
                       depthTestPasses: bool, unproject: Vec3 -> Option<Vec3>)
    returns (r: map<JointType, BodyJoint>)
    ensures r == Projected(latest, calibrating, configured, depthTestPasses, unproject)
  {
    if calibrating {
      if Neck !in latest {
        return latest;
      }
      if !depthTestPasses {
        return map[];
      }
    }
    r := latest;
    if calibrating || configured {
      r := PlaceJoints(r, unproject);
    }
    r := RemoveInvalid(r);
  }

  // ---------------------------------------------------------------------
  // processJoints, step 3: eviction of stale joints
  // ---------------------------------------------------------------------

  predicate IsStale(cache: map<JointType, BodyJoint>, t: JointType, now: real)
    requires t in cache
  {
    now > cache[t].spawnTimeMs + TimeoutMs(t)
  }

  function Unexpired(cache: map<JointType, BodyJoint>, now: real): map<JointType, BodyJoint>
  {
    map t | t in cache && !IsStale(cache, t, now) :: cache[t]
  }

  function Expired(cache: map<JointType, BodyJoint>, now: real): map<JointType, BodyJoint>
  {
    map t | t in cache && IsStale(cache, t, now) :: cache[t]
  }

  /** Every cached joint is either kept or reported as expired, never both. */
  lemma EvictionPartitions(cache: map<JointType, BodyJoint>, now: real)
    ensures Unexpired(cache, now).Keys + Expired(cache, now).Keys == cache.Keys
    ensures Unexpired(cache, now).Keys !! Expired(cache, now).Keys
  {
  }

  /** The eviction loop, with the expired joint recorded before it is
      erased from the cache. */
  method SplitExpired(cache: map<JointType, BodyJoint>, now: real)
    returns (kept: map<JointType, BodyJoint>, expired: map<JointType, BodyJoint>)
    ensures kept == Unexpired(cache, now) && expired == Expired(cache, now)
  {
    kept, expired := cache, map[];
    var rest := cache.Keys;
    while rest != {}
      invariant rest <= cache.Keys
      invariant forall t :: t in kept <==> t in cache && (t in rest || !IsStale(cache, t, now))
      invariant forall t :: t in kept ==> kept[t] == cache[t]
      invariant forall t :: t in expired <==> t in cache && t !in rest && IsStale(cache, t, now)
      invariant forall t :: t in expired ==> expired[t] == cache[t]
      decreases |rest|
    {
      var t :| t in rest;
      if now > kept[t].spawnTimeMs + TimeoutMs(t) {
        expired := expired[t := kept[t]];
        kept := kept - {t};
      }
      rest := rest - {t};
    }
  }

  // ---------------------------------------------------------------------
  // processJoints, step 4: updateCachedJoints
  // ---------------------------------------------------------------------

  /** The volatility test: the new position is closer than 0.15 m to the
      cached one (compared on squared distances). */
  predicate Near(a: Vec3, b: Vec3)
  {
    SquaredDistance(a, b) < VolatilityThresholdMeters * VolatilityThresholdMeters
  }

  /** Whether a newly reported joint of type t replaces the cache entry. */
  predicate Accepts(cache: map<JointType, BodyJoint>, t: JointType, j: BodyJoint,
                    calibrating: bool, reachable: BodyJoint -> bool)
  {
    calibrating || t !in cache || Near(cache[t].translation, j.translation) || reachable(j)
  }

  function CacheUpdated(cache: map<JointType, BodyJoint>, latest: map<JointType, BodyJoint>,
                        calibrating: bool, reachable: BodyJoint -> bool): map<JointType, BodyJoint>
  {
    map t | t in cache.Keys + latest.Keys ::
      if t in latest && Accepts(cache, t, latest[t], calibrating, reachable) then latest[t] else cache[t]
  }

  /** The cache after updateCachedJoints holds the old joints and the new
      ones; a new joint always enters while calibrating or when its type was
      not cached, and otherwise replaces the cached one only when it is near
      it or reachable. */
  lemma CacheUpdatedFacts(cache: map<JointType, BodyJoint>, latest: map<JointType, BodyJoint>,
                          calibrating: bool, reachable: BodyJoint -> bool)
    ensures var r := CacheUpdated(cache, latest, calibrating, reachable);
            (forall t :: t in r <==> t in cache || t in latest) &&
            (forall t :: t in latest && t !in cache ==> r[t] == latest[t]) &&
            (calibrating ==> forall t :: t in latest ==> r[t] == latest[t]) &&
            (forall t :: t in cache && t !in latest ==> r[t] == cache[t]) &&
            (!calibrating ==> forall t :: t in cache && r[t] != cache[t] ==>
               t in latest && r[t] == latest[t] &&
               (Near(cache[t].translation, latest[t].translation) || reachable(latest[t]))) &&
            (forall t :: (t in cache && t in latest &&
               (Near(cache[t].translation, latest[t].translation) || reachable(latest[t]))) ==> r[t] == latest[t])
  {
  }

  /** updateCachedJoints: while calibrating every new joint is cached;
      otherwise the volatility and reachability filters decide. The
      reachability test against the last skeleton pose is `reachable`. */
  method UpdateCachedJoints(cache: map<JointType, BodyJoint>, latest: map<JointType, BodyJoint>,
                            calibrating: bool, reachable: BodyJoint -> bool)
    returns (r: map<JointType, BodyJoint>)
    ensures r == CacheUpdated(cache, latest, calibrating, reachable)
  {
    if calibrating {
      r := CacheAll(cache, latest);
    } else {
      r := CacheFiltered(cache, latest, reachable);
    }
  }

  /** A joint type no new joint has been seen for keeps its cache entry. */
  lemma CacheUpdatedUntouched(cache: map<JointType, BodyJoint>, done: map<JointType, BodyJoint>, t: JointType,
                              calibrating: bool, reachable: BodyJoint -> bool)
    requires t !in done
    ensures t in CacheUpdated(cache, done, calibrating, reachable) <==> t in cache
    ensures t in cache ==> CacheUpdated(cache, done, calibrating, reachable)[t] == cache[t]
  {
  }

  /** Taking one more new joint into account changes the updated cache at
      that joint only, and only when the joint is accepted. */
  lemma CacheUpdatedStep(cache: map<JointType, BodyJoint>, done: map<JointType, BodyJoint>, t: JointType,
                         j: BodyJoint, calibrating: bool, reachable: BodyJoint -> bool)
    requires t !in done
    ensures CacheUpdated(cache, done[t := j], calibrating, reachable) ==
              if Accepts(cache, t, j, calibrating, reachable) then CacheUpdated(cache, done, calibrating, reachable)[t := j]
              else CacheUpdated(cache, done, calibrating, reachable)
  {
    var before := CacheUpdated(cache, done, calibrating, reachable);
    var after := CacheUpdated(cache, done[t := j], calibrating, reachable);
    if Accepts(cache, t, j, calibrating, reachable) {
      assert forall u :: u in after <==> u in before[t := j];
      assert forall u :: u in after ==> after[u] == before[t := j][u];
    } else {
      assert forall u :: u in after <==> u in before;
      assert forall u :: u in after ==> after[u] == before[u];
    }
  }

  /** The new joints not yet visited, as the loops below go through them. */
  lemma VisitedStart(latest: map<JointType, BodyJoint>)
    ensures latest - latest.Keys == map[]
  {
  }

  lemma VisitedStep(latest: map<JointType, BodyJoint>, rest: set<JointType>, t: JointType)
    requires t in rest && rest <= latest.Keys
    ensures (latest - rest)[t := latest[t]] == latest - (rest - {t})
    ensures t !in latest - rest
  {
  }

  lemma VisitedAll(latest: map<JointType, BodyJoint>)
    ensures latest - {} == latest
  {
  }

  method CacheAll(cache: map<JointType, BodyJoint>, latest: map<JointType, BodyJoint>)
    returns (r: map<JointType, BodyJoint>)
    ensures r == CacheUpdated(cache, latest, true, t => false)
  {
    r := cache;
    var rest := latest.Keys;
    VisitedStart(latest);
    CacheUpdatedUnchanged(cache, true, t => false);
    while rest != {}
      invariant rest <= latest.Keys
      invariant r == CacheUpdated(cache, latest - rest, true, t => false)
      decreases |rest|
    {
      var t :| t in rest;
      VisitedStep(latest, rest, t);
      CacheUpdatedStep(cache, latest - rest, t, latest[t], true, t => false);
      r := r[t := latest[t]];
      rest := rest - {t};
    }
    VisitedAll(latest);
  }

  /** With no new joints the cache stays as it is. */
  lemma CacheUpdatedUnchanged(cache: map<JointType, BodyJoint>, calibrating: bool, reachable: BodyJoint -> bool)
    ensures CacheUpdated(cache, map[], calibrating, reachable) == cache
  {
  }

  method CacheFiltered(cache: map<JointType, BodyJoint>, latest: map<JointType, BodyJoint>,
                       reachable: BodyJoint -> bool)
    returns (r: map<JointType, BodyJoint>)
    ensures r == CacheUpdated(cache, latest, false, reachable)
  {
    r := cache;
    var rest := latest.Keys;
    VisitedStart(latest);
    CacheUpdatedUnchanged(cache, false, reachable);
    while rest != {}
      invariant rest <= latest.Keys
      invariant r == CacheUpdated(cache, latest - rest, false, reachable)
      decreases |rest|
    {
      var t :| t in rest;
      var current := latest[t];
      VisitedStep(latest, rest, t);
      CacheUpdatedUntouched(cache, latest - rest, t, false, reachable);
      CacheUpdatedStep(cache, latest - rest, t, current, false, reachable);
      var shouldCache := false;
      if t in r {
        if Near(r[t].translation, current.translation) {
          shouldCache := true;
        }
        if reachable(current) {
          shouldCache := true;
        }
      } else {
        shouldCache := true;
      }
      if shouldCache {
        r := r[t := current];
      }
      rest := rest - {t};
    }
    VisitedAll(latest);
  }

  // ---------------------------------------------------------------------
  // processJoints, step 5: the tracked state
  // ---------------------------------------------------------------------

  datatype TrackedState = NotAvailable | LimitedEffectors | FullEffectors

  /** The state rule as written: FullEffectors when the cache holds as many
      joints as the model has bound joints. The last branch, which keeps the
      current state, cannot be reached once the required joints are there. */
  function TrackedStateAsWritten(keys: set<JointType>, boundCount: nat, current: TrackedState): (r: TrackedState)
    ensures r == NotAvailable <==> !HasRequiredJoints(keys)
    ensures HasRequiredJoints(keys) ==> (r == FullEffectors <==> |keys| == boundCount)
  {
    assert HasRequiredJoints(keys) ==> RequiredJoints[0] in keys;
    if !HasRequiredJoints(keys) then NotAvailable
    else if |keys| == boundCount then FullEffectors
    else if |keys| >= 1 then LimitedEffectors
    else current
  }

  /** The state rule the controller intends: full tracking exactly when the
      cache covers every joint the model has a bone for. */
  function TrackedStateFor(keys: set<JointType>, bound: set<JointType>): (s: TrackedState)
    ensures s == NotAvailable <==> !HasRequiredJoints(keys)
    ensures s == FullEffectors <==> HasRequiredJoints(keys) && bound <= keys
    ensures s == LimitedEffectors <==> HasRequiredJoints(keys) && !(bound <= keys)
    ensures s != NotAvailable ==> Neck in keys
  {
    assert HasRequiredJoints(keys) ==> RequiredJoints[0] in keys;
    if !HasRequiredJoints(keys) then NotAvailable
    else if bound <= keys then FullEffectors
    else LimitedEffectors
  }

  lemma {:induction false} SubsetOfSameSize(a: set<JointType>, b: set<JointType>)
    requires a <= b && |a| == |b|
    ensures a == b
  {
    if a != b {
      var x :| x in b && x !in a;
      assert a <= b - {x};
      SubsetCardinality(a, b - {x});
    }
  }

  lemma {:induction false} SubsetCardinality(a: set<JointType>, b: set<JointType>)
    requires a <= b
    ensures |a| <= |b|
    decreases |b|
  {
    if a != {} {
      var x :| x in a;
      SubsetCardinality(a - {x}, b - {x});
    }
  }

  /** When only bound joints are ever cached, comparing sizes is the same
      as checking that every bound joint is cached. */
  lemma AsWrittenAgreesWhenOnlyBoundJointsCached(keys: set<JointType>, bound: set<JointType>, current: TrackedState)
    requires keys <= bound
    ensures TrackedStateAsWritten(keys, |bound|, current) == TrackedStateFor(keys, bound)
  {
    if HasRequiredJoints(keys) {
      assert RequiredJoints[0] in keys;
      assert keys != {};
      if bound <= keys {
        assert keys == bound;
      } else if |keys| == |bound| {
        SubsetOfSameSize(keys, bound);
      }
    }
  }

  /** A model whose skeleton has bones for the required joints and the
      left ankle only (no head-top bone). */
  const FindingBound: set<JointType> := {Neck, RightHip, LeftHip, LeftAnkle}

  /** A cache holding the head top, which the model has no bone for, but
      missing the left ankle: as many entries as there are bound joints. */
  const FindingCache: set<JointType> := {Top, Neck, RightHip, LeftHip}

  /** The size comparison reports full tracking although a bound joint (the
      left ankle) is missing; the intended rule reports limited tracking. */
  lemma AsWrittenReportsFullWithMissingJoint()
    ensures LeftAnkle in FindingBound && LeftAnkle !in FindingCache
    ensures TrackedStateAsWritten(FindingCache, |FindingBound|, NotAvailable) == FullEffectors
    ensures TrackedStateFor(FindingCache, FindingBound) == LimitedEffectors
  {
    assert FindingCache == (FindingBound - {LeftAnkle}) + {Top};
    assert |FindingBound - {LeftAnkle}| == |FindingBound| - 1;
    assert |FindingCache| == |FindingBound|;
    assert HasRequiredJoints(FindingCache);
  }

  /** setBodyTrackedState: the new state, and whether a delegate is told. */
  function StateChange(current: TrackedState, state: TrackedState, hasDelegate: bool): (r: (TrackedState, bool))
    ensures r.0 == state
    ensures r.1 <==> current != state && hasDelegate
  {
    if current == state then (current, false) else (state, hasDelegate)
  }

  /** Setting the same state twice notifies at most once. */
  lemma RepeatedStateNotifiesOnce(current: TrackedState, state: TrackedState, hasDelegate: bool)
    ensures !StateChange(StateChange(current, state, hasDelegate).0, state, hasDelegate).1
  {
  }

  // ---------------------------------------------------------------------
  // processJoints, step 6: restoreMissingJoints
  // ---------------------------------------------------------------------

  /** _cachedEffectorRootOffsets[t]: an absent entry is a default-constructed
      matrix, taken to be the identity, so no offset. */
  function OffsetOf(offsets: map<JointType, Vec3>, t: JointType): Vec3
  {
    if t in offsets then offsets[t] else Origin
  }

  /** The offset of every cached joint but the root from the root. */
  function RootOffsets(cache: map<JointType, BodyJoint>): map<JointType, Vec3>
    requires Neck in cache
  {
    map t | t in cache && t != Neck :: Sub(cache[t].translation, cache[Neck].translation)
  }

  /** Every cached joint but the root has an offset, and the root plus that
      offset is where the joint is. */
  lemma RootOffsetsPlaceJoints(cache: map<JointType, BodyJoint>)
    requires Neck in cache
    ensures forall t :: t in RootOffsets(cache) <==> t in cache && t != Neck
    ensures forall t :: t in RootOffsets(cache) ==>
              Add(cache[Neck].translation, RootOffsets(cache)[t]) == cache[t].translation
  {
  }

  /** An expired joint put back at the root plus its last known offset. */
  function RestoredJoint(cache: map<JointType, BodyJoint>, offsets: map<JointType, Vec3>, j: BodyJoint, t: JointType): BodyJoint
    requires Neck in cache
  {
    SetProjectedTransform(j, Add(cache[Neck].translation, OffsetOf(offsets, t)))
  }

  predicate RestoresJoints(calibrating: bool, state: TrackedState)
  {
    !calibrating && state != NotAvailable
  }

  function Restored(cache: map<JointType, BodyJoint>, offsets: map<JointType, Vec3>,
                    expired: map<JointType, BodyJoint>, calibrating: bool, state: TrackedState)
    : map<JointType, BodyJoint>
    requires RestoresJoints(calibrating, state) ==> Neck in cache
  {
    if !RestoresJoints(calibrating, state) then cache
    else
      map t | t in cache.Keys + expired.Keys ::
        if t in cache then cache[t] else RestoredJoint(cache, offsets, expired[t], t)
  }

  /** Restoring never touches a cached joint; it adds exactly the expired
      joints (when it runs at all), each at the root plus its last offset. */
  lemma RestoredFacts(cache: map<JointType, BodyJoint>, offsets: map<JointType, Vec3>,
                      expired: map<JointType, BodyJoint>, calibrating: bool, state: TrackedState)
    requires RestoresJoints(calibrating, state) ==> Neck in cache
    ensures var r := Restored(cache, offsets, expired, calibrating, state);
            (!RestoresJoints(calibrating, state) ==> r == cache) &&
            (forall t :: t in cache ==> t in r && r[t] == cache[t]) &&
            (forall t :: t in r <==> t in cache || (RestoresJoints(calibrating, state) && t in expired)) &&
            (RestoresJoints(calibrating, state) ==> forall t :: t in r && t !in cache ==>
               SameReading(r[t], expired[t]) &&
               Projection(r[t]) == Some(Add(cache[Neck].translation, OffsetOf(offsets, t))))
  {
  }

  /** A joint that expires while the root stays put is restored exactly
      where it was when its offset was recorded. */
  lemma RestoreRecoversLastPosition(before: map<JointType, BodyJoint>, after: map<JointType, BodyJoint>,
                                    expired: map<JointType, BodyJoint>, state: TrackedState, t: JointType)
    requires Neck in before && Neck in after && after[Neck].translation == before[Neck].translation
    requires state != NotAvailable
    requires t in before && t != Neck && t in expired && t !in after
    ensures Projection(Restored(after, RootOffsets(before), expired, false, state)[t]) == Some(before[t].translation)
  {
    var offsets := RootOffsets(before);
    assert OffsetOf(offsets, t) == offsets[t];
  }

  method RestoreJoints(cache: map<JointType, BodyJoint>, offsets: map<JointType, Vec3>,
                       expired: map<JointType, BodyJoint>)
    returns (r: map<JointType, BodyJoint>)
    requires Neck in cache
    ensures r == Restored(cache, offsets, expired, false, LimitedEffectors)
  {
    r := cache;
    var rest := expired.Keys;
    while rest != {}
      invariant rest <= expired.Keys
      invariant forall t :: t in r <==> t in cache || (t in expired && t !in rest)
      invariant forall t :: t in r ==> r[t] == if t in cache then cache[t] else RestoredJoint(cache, offsets, expired[t], t)
      decreases |rest|
    {
      var t :| t in rest;
      if t !in r {
        var jointTrans := Add(r[Neck].translation, OffsetOf(offsets, t));
        r := r[t := SetProjectedTransform(expired[t], jointTrans)];
      }
      rest := rest - {t};
    }
  }

  method ComputeRootOffsets(cache: map<JointType, BodyJoint>) returns (r: map<JointType, Vec3>)
    requires Neck in cache
    ensures r == RootOffsets(cache)
  {
    r := map[];
    var root := cache[Neck].translation;
    var rest := cache.Keys;
    while rest != {}
      invariant rest <= cache.Keys
      invariant forall t :: t in r <==> t in cache && t !in rest && t != Neck
      invariant forall t :: t in r ==> r[t] == Sub(cache[t].translation, root)
      decreases |rest|
    {
      var t :| t in rest;
      if t != Neck {
        r := r[t := Sub(cache[t].translation, root)];
      }
      rest := rest - {t};
    }
  }

  // ---------------------------------------------------------------------
  // processJoints, step 7: the dampening window
  // ---------------------------------------------------------------------

  datatype WindowEntry = WindowEntry(timeMs: real, position: Vec3)

  /** A window with the entries older than `start` removed, in order. */
  function KeepRecent(w: seq<WindowEntry>, start: real): (r: seq<WindowEntry>)
    ensures |r| <= |w|
    ensures forall i :: 0 <= i < |r| ==> r[i].timeMs >= start
  {
    if w == [] then []
    else
      var init := KeepRecent(w[..|w| - 1], start);
      if w[|w| - 1].timeMs < start then init else init + [w[|w| - 1]]
  }

  /** The entries kept are exactly the window's entries from `start` on. */
  lemma {:induction false} KeepRecentMembers(w: seq<WindowEntry>, start: real)
    ensures forall e :: e in KeepRecent(w, start) <==> e in w && e.timeMs >= start
    decreases |w|
  {
    if w != [] {
      var prefix := w[..|w| - 1];
      KeepRecentMembers(prefix, start);
      assert w == prefix + [w[|w| - 1]];
    }
  }

  /** Dropping stale entries a second time changes nothing. */
  lemma {:induction false} KeepRecentIdempotent(w: seq<WindowEntry>, start: real)
    ensures KeepRecent(KeepRecent(w, start), start) == KeepRecent(w, start)
    decreases |w|
  {
    if w != [] {
      var init := KeepRecent(w[..|w| - 1], start);
      KeepRecentIdempotent(w[..|w| - 1], start);
      if w[|w| - 1].timeMs >= start {
        var r := init + [w[|w| - 1]];
        assert r[..|r| - 1] == init;
      }
    }
  }

  /** The remove_if over one window. */
  method DropStale(w: seq<WindowEntry>, start: real) returns (r: seq<WindowEntry>)
    ensures r == KeepRecent(w, start)
  {
    r := [];
    var i := 0;
    while i < |w|
      invariant 0 <= i <= |w|
      invariant r == KeepRecent(w[..i], start)
    {
      assert w[..i + 1][..i] == w[..i];
      if w[i].timeMs >= start {
        r := r + [w[i]];
      }
      i := i + 1;
    }
    assert w[..|w|] == w;
  }

  /** The window of joint t with this frame's position appended when t is
      cached. */
  function FrameWindow(windows: map<JointType, seq<WindowEntry>>, cache: map<JointType, BodyJoint>,
                       now: real, t: JointType): seq<WindowEntry>
  {
    if t in cache then (if t in windows then windows[t] else []) + [WindowEntry(now, cache[t].translation)]
    else if t in windows then windows[t]
    else []
  }

  /** Every joint's window after this frame's positions are appended. */
  function Appended(windows: map<JointType, seq<WindowEntry>>, cache: map<JointType, BodyJoint>, now: real)
    : map<JointType, seq<WindowEntry>>
  {
    map t | t in windows.Keys + cache.Keys :: FrameWindow(windows, cache, now, t)
  }

  function Trimmed(windows: map<JointType, seq<WindowEntry>>, start: real): map<JointType, seq<WindowEntry>>
  {
    map t | t in windows :: KeepRecent(windows[t], start)
  }

  /** With a positive period, each cached joint's window still ends with
      this frame's position, and no window holds an entry older than the
      period. */
  lemma WindowKeepsCurrentPosition(windows: map<JointType, seq<WindowEntry>>, cache: map<JointType, BodyJoint>,
                                   now: real, period: real, t: JointType)
    requires period > 0.0 && t in cache
    ensures var w := DampenedWindows(windows, cache, now, period)[t];
            |w| > 0 && w[|w| - 1] == WindowEntry(now, cache[t].translation) &&
            forall i :: 0 <= i < |w| ==> w[i].timeMs >= now - period
  {
    var init := if t in windows then windows[t] else [];
    var e := WindowEntry(now, cache[t].translation);
    var appended := Appended(windows, cache, now);
    assert appended[t] == init + [e];
    KeepRecentAppend(init, e, now - period);
    assert DampenedWindows(windows, cache, now, period)[t] == KeepRecent(init + [e], now - period);
  }

  /** An entry no older than the start survives, at the end. */
  lemma KeepRecentAppend(w: seq<WindowEntry>, e: WindowEntry, start: real)
    requires e.timeMs >= start
    ensures KeepRecent(w + [e], start) == KeepRecent(w, start) + [e]
  {
    assert (w + [e])[..|w + [e]| - 1] == w;
  }

  /** The window of a joint that is no longer cached runs empty once all
      its entries are older than the period. */
  lemma LostJointWindowEmpties(windows: map<JointType, seq<WindowEntry>>, cache: map<JointType, BodyJoint>,
                               now: real, period: real, t: JointType)
    requires t in windows && t !in cache
    requires forall i :: 0 <= i < |windows[t]| ==> windows[t][i].timeMs < now - period
    ensures DampenedWindows(windows, cache, now, period)[t] == []
  {
    var appended := Appended(windows, cache, now);
    assert appended[t] == windows[t];
    KeepRecentAllStale(windows[t], now - period);
    assert Trimmed(appended, now - period)[t] == KeepRecent(windows[t], now - period);
  }

  lemma {:induction false} KeepRecentAllStale(w: seq<WindowEntry>, start: real)
    requires forall i :: 0 <= i < |w| ==> w[i].timeMs < start
    ensures KeepRecent(w, start) == []
    decreases |w|
  {
    if w != [] {
      KeepRecentAllStale(w[..|w| - 1], start);
    }
  }

  /** A joint this frame has not reached yet keeps its window. */
  lemma AppendedUntouched(windows: map<JointType, seq<WindowEntry>>, done: map<JointType, BodyJoint>, now: real,
                          t: JointType)
    requires t !in done
    ensures t in Appended(windows, done, now) <==> t in windows
    ensures t in windows ==> Appended(windows, done, now)[t] == windows[t]
  {
  }

  /** Appending one more joint's position changes that joint's window only. */
  lemma AppendedStep(windows: map<JointType, seq<WindowEntry>>, done: map<JointType, BodyJoint>, now: real,
                     t: JointType, j: BodyJoint)
    requires t !in done
    ensures Appended(windows, done[t := j], now) ==
              Appended(windows, done, now)[t := (if t in windows then windows[t] else []) + [WindowEntry(now, j.translation)]]
  {
    var before := Appended(windows, done, now);
    var after := Appended(windows, done[t := j], now);
    var w := (if t in windows then windows[t] else []) + [WindowEntry(now, j.translation)];
    assert forall u :: u in after <==> u in before[t := w];
    assert forall u :: u in after ==> after[u] == before[t := w][u];
  }

  lemma AppendedNothing(windows: map<JointType, seq<WindowEntry>>, now: real)
    ensures Appended(windows, map[], now) == windows
  {
  }

  method AppendPositions(windows: map<JointType, seq<WindowEntry>>, cache: map<JointType, BodyJoint>, now: real)
    returns (r: map<JointType, seq<WindowEntry>>)
    ensures r == Appended(windows, cache, now)
  {
    r := windows;
    var rest := cache.Keys;
    VisitedStart(cache);
    AppendedNothing(windows, now);
    while rest != {}
      invariant rest <= cache.Keys
      invariant r == Appended(windows, cache - rest, now)
      decreases |rest|
    {
      var t :| t in rest;
      VisitedStep(cache, rest, t);
      AppendedUntouched(windows, cache - rest, now, t);
      AppendedStep(windows, cache - rest, now, t, cache[t]);
      var w := if t in r then r[t] else [];
      r := r[t := w + [WindowEntry(now, cache[t].translation)]];
      rest := rest - {t};
    }
    VisitedAll(cache);
  }

  method TrimWindows(windows: map<JointType, seq<WindowEntry>>, start: real)
    returns (r: map<JointType, seq<WindowEntry>>)
    ensures r == Trimmed(windows, start)
  {
    r := windows;
    var rest := windows.Keys;
    while rest != {}
      invariant rest <= windows.Keys
      invariant forall t :: t in r <==> t in windows
      invariant forall t :: t in r ==> r[t] == if t in rest then windows[t] else KeepRecent(windows[t], start)
      decreases |rest|
    {
      var t :| t in rest;
      var kept := DropStale(r[t], start);
      r := r[t := kept];
      rest := rest - {t};
    }
  }

  /** The windows after one frame: positions appended, stale entries
      dropped. */
  function DampenedWindows(windows: map<JointType, seq<WindowEntry>>, cache: map<JointType, BodyJoint>,
                           now: real, period: real): map<JointType, seq<WindowEntry>>
  {
    Trimmed(Appended(windows, cache, now), now - period)
  }

  method DampenWindows(windows: map<JointType, seq<WindowEntry>>, cache: map<JointType, BodyJoint>,
                       now: real, period: real)
    returns (r: map<JointType, seq<WindowEntry>>)
    ensures r == DampenedWindows(windows, cache, now, period)
  {
    var appended := AppendPositions(windows, cache, now);
    TrimmingAppended(windows, cache, now, period, appended);
    r := TrimWindows(appended, now - period);
  }

  /** Trimming the appended windows is one dampening pass. */
  lemma TrimmingAppended(windows: map<JointType, seq<WindowEntry>>, cache: map<JointType, BodyJoint>,
                         now: real, period: real, appended: map<JointType, seq<WindowEntry>>)
    requires appended == Appended(windows, cache, now)
    ensures Trimmed(appended, now - period) == DampenedWindows(windows, cache, now, period)
  {
  }

  /** The moving average as written: one model joint per window, empty
      windows included, although the average's first step reads the
      window's first entry. */
  function SmoothedAsWritten(windows: map<JointType, seq<WindowEntry>>, smooth: seq<WindowEntry> -> Vec3)
    : (r: map<JointType, Vec3>)
    ensures r.Keys == windows.Keys
  {
    map t | t in windows :: smooth(windows[t])
  }

  /** A lost joint whose last entry has fallen out of the period leaves an
      empty window behind, and the average as written is still asked for
      it. */
  lemma AsWrittenAveragesEmptyWindow(smooth: seq<WindowEntry> -> Vec3)
    ensures var windows := DampenedWindows(map[LeftAnkle := [WindowEntry(0.0, Origin)]], map[], 1000.0, 100.0);
            LeftAnkle in windows && windows[LeftAnkle] == [] &&
            SmoothedAsWritten(windows, smooth)[LeftAnkle] == smooth([])
  {
    LostJointWindowEmpties(map[LeftAnkle := [WindowEntry(0.0, Origin)]], map[], 1000.0, 100.0, LeftAnkle);
  }

  /** The model joints the moving average computes: one per window that
      still holds an entry, so the average never sees an empty window. */
  function Smoothed(windows: map<JointType, seq<WindowEntry>>, smooth: seq<WindowEntry> -> Vec3)
    : (r: map<JointType, Vec3>)
    ensures forall t :: t in r <==> t in windows && windows[t] != []
    ensures forall t :: t in r ==> r[t] == SmoothedAsWritten(windows, smooth)[t]
  {
    map t | t in windows && windows[t] != [] :: smooth(windows[t])
  }

  /** The cached positions, undampened. */
  function Positions(cache: map<JointType, BodyJoint>): map<JointType, Vec3>
  {
    map t | t in cache :: cache[t].translation
  }

  method CopyPositions(cache: map<JointType, BodyJoint>) returns (r: map<JointType, Vec3>)
    ensures r == Positions(cache)
  {
    r := map[];
    var rest := cache.Keys;
    while rest != {}
      invariant rest <= cache.Keys
      invariant forall t :: t in r <==> t in cache && t !in rest
      invariant forall t :: t in r ==> r[t] == cache[t].translation
      decreases |rest|
    {
      var t :| t in rest;
      r := r[t := cache[t].translation];
      rest := rest - {t};
    }
  }

  // ---------------------------------------------------------------------
  // The controller
  // ---------------------------------------------------------------------

  /** The joints that remain cached after one frame's filtering, before any
      missing joint is restored. */
  function FilteredCache(cache: map<JointType, BodyJoint>, joints: map<JointType, BodyJoint>, now: real,
                         calibrating: bool, configured: bool, depthTestPasses: bool,
                         unproject: Vec3 -> Option<Vec3>, reachable: BodyJoint -> bool)
    : map<JointType, BodyJoint>
  {
    CacheUpdated(Unexpired(cache, now),
                 Projected(Confident(joints), calibrating, configured, depthTestPasses, unproject),
                 calibrating, reachable)
  }

  /** Steps 1 to 4 of processJoints: the confident joints are projected,
      stale joints leave the cache (and are returned), and the new joints
      pass the cache filters. */
  method FilterFrame(cache: map<JointType, BodyJoint>, joints: map<JointType, BodyJoint>, now: real,
                     calibrating: bool, configured: bool, depthTestPasses: bool,
                     unproject: Vec3 -> Option<Vec3>, reachable: BodyJoint -> bool)
    returns (filtered: map<JointType, BodyJoint>, expired: map<JointType, BodyJoint>)
    ensures filtered == FilteredCache(cache, joints, now, calibrating, configured, depthTestPasses, unproject, reachable)
    ensures expired == Expired(cache, now)
  {
    var latest := FilterConfident(joints);
    latest := ProjectJoints(latest, calibrating, configured, depthTestPasses, unproject);
    var kept;
    kept, expired := SplitExpired(cache, now);
    filtered := UpdateCachedJoints(kept, latest, calibrating, reachable);
  }

  /** Step 5 of processJoints: the required-joints loop, then the state. */
  method TrackedStateOf(keys: set<JointType>, bound: set<JointType>) returns (state: TrackedState)
    ensures state == TrackedStateFor(keys, bound)
  {
    var hasRequired := CheckRequiredJoints(keys);
    if !hasRequired {
      state := NotAvailable;
    } else if bound <= keys {
      state := FullEffectors;
    } else {
      state := LimitedEffectors;
    }
  }

  /** The root offsets after restoreMissingJoints: recomputed whenever
      joints are restored, kept otherwise. */
  function OffsetsAfterRestore(cache: map<JointType, BodyJoint>, offsets: map<JointType, Vec3>,
                               calibrating: bool, state: TrackedState): map<JointType, Vec3>
    requires RestoresJoints(calibrating, state) ==> Neck in cache
  {
    if RestoresJoints(calibrating, state) then RootOffsets(cache) else offsets
  }

  /** Step 6 of processJoints: restoreMissingJoints, then the offsets of
      every cached joint from the root are recorded again. */
  method RestoreStep(cache: map<JointType, BodyJoint>, offsets: map<JointType, Vec3>,
                     expired: map<JointType, BodyJoint>, calibrating: bool, state: TrackedState)
    returns (restored: map<JointType, BodyJoint>, newOffsets: map<JointType, Vec3>)
    requires RestoresJoints(calibrating, state) ==> Neck in cache
    ensures restored == Restored(cache, offsets, expired, calibrating, state)
    ensures RestoresJoints(calibrating, state) ==> Neck in restored
    ensures newOffsets == OffsetsAfterRestore(restored, offsets, calibrating, state)
  {
    if calibrating || state == NotAvailable {
      return cache, offsets;
    }
    restored := RestoreJoints(cache, offsets, expired);
    newOffsets := ComputeRootOffsets(restored);
  }

  /** The windows after dampenCachedJoints: untouched with period 0. */
  function WindowsAfterDampening(windows: map<JointType, seq<WindowEntry>>, cache: map<JointType, BodyJoint>,
                                 now: real, period: real): map<JointType, seq<WindowEntry>>
  {
    if period == 0.0 then windows else DampenedWindows(windows, cache, now, period)
  }

  /** The model joints after dampenCachedJoints: the cached positions with
      period 0, the moving average of each window otherwise. */
  function ModelJointsAfterDampening(windows: map<JointType, seq<WindowEntry>>, cache: map<JointType, BodyJoint>,
                                     period: real, smooth: seq<WindowEntry> -> Vec3): map<JointType, Vec3>
  {
    if period == 0.0 then Positions(cache) else Smoothed(windows, smooth)
  }

  /** Step 7 of processJoints: dampenCachedJoints. */
  method DampenStep(windows: map<JointType, seq<WindowEntry>>, cache: map<JointType, BodyJoint>,
                    now: real, period: real, smooth: seq<WindowEntry> -> Vec3)
    returns (newWindows: map<JointType, seq<WindowEntry>>, model: map<JointType, Vec3>)
    ensures newWindows == WindowsAfterDampening(windows, cache, now, period)
    ensures model == ModelJointsAfterDampening(newWindows, cache, period, smooth)
  {
    if period == 0.0 {
      model := CopyPositions(cache);
      return windows, model;
    }
    newWindows := DampenWindows(windows, cache, now, period);
    model := Smoothed(newWindows, smooth);
  }

  /** What the controller keeps from frame to frame. */
  datatype Tracking = Tracking(
    state: TrackedState,
    joints: map<JointType, BodyJoint>,
    rootOffsets: map<JointType, Vec3>,
    windows: map<JointType, seq<WindowEntry>>,
    modelJoints: map<JointType, Vec3>)

  /** A tracked state other than NotAvailable never claims joints the
      cache lacks. */
  predicate TrackingValid(t: Tracking)
  {
    t.state != NotAvailable ==> HasRequiredJoints(t.joints.Keys)
  }

  /** The controller's state after processJoints. `bound` holds the joints
      the model has bones for; the configuration (calibrating, a calibrated
      configuration, the dampening period) is not changed by a frame. */
  function Processed(before: Tracking, bound: set<JointType>, calibrating: bool, configured: bool, period: real,
                     joints: map<JointType, BodyJoint>, now: real, depthTestPasses: bool,
                     unproject: Vec3 -> Option<Vec3>, reachable: BodyJoint -> bool,
                     smooth: seq<WindowEntry> -> Vec3): Tracking
  {
    var filtered := FilteredCache(before.joints, joints, now, calibrating, configured, depthTestPasses, unproject, reachable);
    var state := TrackedStateFor(filtered.Keys, bound);
    var cache := Restored(filtered, before.rootOffsets, Expired(before.joints, now), calibrating, state);
    var windows := WindowsAfterDampening(before.windows, cache, now, period);
    Tracking(state, cache, OffsetsAfterRestore(cache, before.rootOffsets, calibrating, state), windows,
             ModelJointsAfterDampening(windows, cache, period, smooth))
  }

  /** The frame as processJoints runs it, step by step. */
  method ProcessFrame(before: Tracking, bound: set<JointType>, calibrating: bool, configured: bool, period: real,
                      joints: map<JointType, BodyJoint>, now: real, depthTestPasses: bool,
                      unproject: Vec3 -> Option<Vec3>, reachable: BodyJoint -> bool,
                      smooth: seq<WindowEntry> -> Vec3)
    returns (after: Tracking)
    ensures after == Processed(before, bound, calibrating, configured, period, joints, now, depthTestPasses,
                               unproject, reachable, smooth)
    ensures TrackingValid(after)
  {
    ProcessedFrameFacts(before, bound, calibrating, configured, period, joints, now, depthTestPasses,
                        unproject, reachable, smooth);
    var filtered, expired := FilterFrame(before.joints, joints, now, calibrating, configured,
                                         depthTestPasses, unproject, reachable);
    var state := TrackedStateOf(filtered.Keys, bound);
    var cache, offsets := RestoreStep(filtered, before.rootOffsets, expired, calibrating, state);
    var windows, model := DampenStep(before.windows, cache, now, period, smooth);
    after := Tracking(state, cache, offsets, windows, model);
  }

  /** What a processed frame guarantees: the state reflects the filtered
      cache (full exactly when every bound joint is cached), no filtered
      joint is lost to restoring, restored offsets place every joint
      relative to the neck, and the model joints follow the new cache. */
  lemma ProcessedFrameFacts(before: Tracking, bound: set<JointType>, calibrating: bool, configured: bool, period: real,
                            joints: map<JointType, BodyJoint>, now: real, depthTestPasses: bool,
                            unproject: Vec3 -> Option<Vec3>, reachable: BodyJoint -> bool,
                            smooth: seq<WindowEntry> -> Vec3)
    ensures var filtered := FilteredCache(before.joints, joints, now, calibrating, configured, depthTestPasses,
                                          unproject, reachable);
            var after := Processed(before, bound, calibrating, configured, period, joints, now, depthTestPasses,
                                   unproject, reachable, smooth);
            TrackingValid(after) &&
            (after.state == FullEffectors <==> HasRequiredJoints(filtered.Keys) && bound <= filtered.Keys) &&
            (forall t :: t in filtered ==> t in after.joints && after.joints[t] == filtered[t]) &&
            (RestoresJoints(calibrating, after.state) ==>
               forall t :: t in after.rootOffsets ==>
                 Add(after.joints[Neck].translation, after.rootOffsets[t]) == after.joints[t].translation) &&
            (period == 0.0 ==> (after.windows == before.windows &&
               forall t :: t in after.modelJoints <==> t in after.joints)) &&
            (period != 0.0 ==> forall t :: t in after.modelJoints <==> t in after.windows && after.windows[t] != [])
  {
    var filtered := FilteredCache(before.joints, joints, now, calibrating, configured, depthTestPasses,
                                  unproject, reachable);
    var state := TrackedStateFor(filtered.Keys, bound);
    RestoredFacts(filtered, before.rootOffsets, Expired(before.joints, now), calibrating, state);
    var cache := Restored(filtered, before.rootOffsets, Expired(before.joints, now), calibrating, state);
    if RestoresJoints(calibrating, state) {
      RootOffsetsPlaceJoints(cache);
    }
  }

  class Controller {
    var modelBound: bool
    var calibrating: bool
    var hasCalibratedConfig: bool
    var currentTrackedState: TrackedState
    var dampeningPeriodMs: real
    var mlJointForBoneIndex: map<JointType, nat>
    var cachedTrackedJoints: map<JointType, BodyJoint>
    var cachedEffectorRootOffsets: map<JointType, Vec3>
    var cachedJointWindow: map<JointType, seq<WindowEntry>>
    var cachedModelJoints: map<JointType, Vec3>

    /** The per-frame state, as one value. */
    function Snapshot(): Tracking
      reads this
    {
      Tracking(currentTrackedState, cachedTrackedJoints, cachedEffectorRootOffsets, cachedJointWindow,
               cachedModelJoints)
    }

    predicate Valid()
      reads this
    {
      currentTrackedState != NotAvailable ==> HasRequiredJoints(cachedTrackedJoints.Keys)
    }

    constructor()
      ensures Valid()
      ensures currentTrackedState == NotAvailable && !calibrating && !hasCalibratedConfig
      ensures dampeningPeriodMs == InitialDampeningPeriodMs && !modelBound
      ensures mlJointForBoneIndex == map[] && cachedTrackedJoints == map[]
      ensures cachedEffectorRootOffsets == map[] && cachedJointWindow == map[] && cachedModelJoints == map[]
    {
      modelBound := false;
      calibrating := false;
      hasCalibratedConfig := false;
      currentTrackedState := NotAvailable;
      dampeningPeriodMs := InitialDampeningPeriodMs;
      mlJointForBoneIndex := map[];
      cachedTrackedJoints := map[];
      cachedEffectorRootOffsets := map[];
      cachedJointWindow := map[];
      cachedModelJoints := map[];
    }

    /** bindModel: fails without a skinner, or when the skeleton lacks a
        bone for any required joint; the joint-to-bone map is rebuilt first. */
    method BindModel(hasSkinner: bool, boneTags: map<JointType, string>, bones: map<string, nat>)
      returns (ok: bool)
      modifies this`mlJointForBoneIndex, this`modelBound
      ensures ok <==> hasSkinner && HasRequiredJoints(BoundJoints(boneTags, bones).Keys)
      ensures modelBound == ok
      ensures mlJointForBoneIndex == if hasSkinner then BoundJoints(boneTags, bones) else map[]
    {
      mlJointForBoneIndex := map[];
      modelBound := false;
      if !hasSkinner {
        return false;
      }
      mlJointForBoneIndex := BindJoints(boneTags, bones);
      ok := CheckRequiredJoints(mlJointForBoneIndex.Keys);
      modelBound := ok;
    }

    method SetDampeningPeriodMs(period: real)
      modifies this`dampeningPeriodMs
      ensures dampeningPeriodMs == period
    {
      dampeningPeriodMs := period;
    }

    /** setBodyTrackedState; `hasDelegate` is whether the weakly held
        delegate is still alive. */
    method SetBodyTrackedState(state: TrackedState, hasDelegate: bool) returns (notified: bool)
      modifies this`currentTrackedState
      ensures (currentTrackedState, notified) == StateChange(old(currentTrackedState), state, hasDelegate)
    {
      if currentTrackedState == state {
        return false;
      }
      currentTrackedState := state;
      notified := hasDelegate;
    }

    /** restoreMissingJoints, then the offsets of every cached joint from
        the root are recorded again. */
    method RestoreMissingJoints(expired: map<JointType, BodyJoint>)
      requires RestoresJoints(calibrating, currentTrackedState) ==> Neck in cachedTrackedJoints
      modifies this`cachedTrackedJoints, this`cachedEffectorRootOffsets
      ensures cachedTrackedJoints ==
        Restored(old(cachedTrackedJoints), old(cachedEffectorRootOffsets), expired, calibrating, currentTrackedState)
      ensures cachedEffectorRootOffsets ==
        OffsetsAfterRestore(cachedTrackedJoints, old(cachedEffectorRootOffsets), calibrating, currentTrackedState)
    {
      cachedTrackedJoints, cachedEffectorRootOffsets :=
        RestoreStep(cachedTrackedJoints, cachedEffectorRootOffsets, expired, calibrating, currentTrackedState);
    }

    /** dampenCachedJoints: with period 0 the cached positions are used as
        they are; otherwise this frame's positions join the windows, entries
        older than the period are dropped, and `smooth` (the moving average)
        turns each window into the model joint. */
    method DampenCachedJoints(now: real, smooth: seq<WindowEntry> -> Vec3)
      modifies this`cachedJointWindow, this`cachedModelJoints
      ensures cachedJointWindow ==
        WindowsAfterDampening(old(cachedJointWindow), cachedTrackedJoints, now, dampeningPeriodMs)
      ensures cachedModelJoints ==
        ModelJointsAfterDampening(cachedJointWindow, cachedTrackedJoints, dampeningPeriodMs, smooth)
    {
      cachedJointWindow, cachedModelJoints :=
        DampenStep(cachedJointWindow, cachedTrackedJoints, now, dampeningPeriodMs, smooth);
    }

    /** processJoints for one frame of reported joints, all read at time
        `now`. Returns whether the delegate was told of a state change. */
    method ProcessJoints(joints: map<JointType, BodyJoint>, now: real, hasDelegate: bool,
                         depthTestPasses: bool, unproject: Vec3 -> Option<Vec3>,
                         reachable: BodyJoint -> bool, smooth: seq<WindowEntry> -> Vec3)
      returns (notified: bool)
      modifies this`currentTrackedState, this`cachedTrackedJoints, this`cachedEffectorRootOffsets,
               this`cachedJointWindow, this`cachedModelJoints
      ensures Snapshot() ==
        old(Processed(Snapshot(), mlJointForBoneIndex.Keys, calibrating, hasCalibratedConfig, dampeningPeriodMs,
                      joints, now, depthTestPasses, unproject, reachable, smooth))
      ensures notified == StateChange(old(currentTrackedState), currentTrackedState, hasDelegate).1
      ensures Valid()
    {
      var after := ProcessFrame(Snapshot(), mlJointForBoneIndex.Keys, calibrating, hasCalibratedConfig,
                                dampeningPeriodMs, joints, now, depthTestPasses, unproject, reachable, smooth);
      notified := SetBodyTrackedState(after.state, hasDelegate);
      cachedTrackedJoints := after.joints;
      cachedEffectorRootOffsets := after.rootOffsets;
      cachedJointWindow := after.windows;
      cachedModelJoints := after.modelJoints;
    }
  }

  // ---------------------------------------------------------------------
  // VROBodyTrackerControllerEventDelegate::onPinch
  // ---------------------------------------------------------------------

  datatype PinchState = PinchStart | PinchMove | PinchEnd

  /** The scale a pinch sets: start × factor on all three axes. */
  function PinchScale(scaleStart: real, scaleFactor: real): (v: Vec3)
    ensures v.x == v.y == v.z == scaleStart * scaleFactor
  {
    var s := scaleStart * scaleFactor;
    Vec3(s, s, s)
  }

  /** The model root node the pinch scales. */
  class ScaledNode {
    var scale: Vec3

    constructor(scale: Vec3)
      ensures this.scale == scale
    {
      this.scale := scale;
    }
  }

  class EventDelegate {
    var scaleStart: real

    constructor()
      ensures scaleStart == 0.0
    {
      scaleStart := 0.0;
    }

    /** A pinch start records the node's x scale; any other pinch event sets
        a uniform scale of that start times the factor. Nothing happens once
        the controller is gone (`controllerAlive` is the weak reference). */
    method OnPinch(controllerAlive: bool, node: ScaledNode, scaleFactor: real, pinchState: PinchState)
      modifies this, node
      ensures !controllerAlive ==> scaleStart == old(scaleStart) && node.scale == old(node.scale)
      ensures controllerAlive && pinchState == PinchStart ==>
                scaleStart == old(node.scale.x) && node.scale == old(node.scale)
      ensures controllerAlive && pinchState != PinchStart ==>
                scaleStart == old(scaleStart) && node.scale == PinchScale(scaleStart, scaleFactor)
    {
      if !controllerAlive {
        return;
      }
      if pinchState == PinchStart {
        scaleStart := node.scale.x;
      } else {
        node.scale := PinchScale(scaleStart, scaleFactor);
      }
    }
  }
}
