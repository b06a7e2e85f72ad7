/** The Java ARScene: decoding the tracking state and reason the native
    side reports, the one-shot tracking-initialized callback, the cloud
    anchor host and resolve requests with their de-duplication, the anchor
    callbacks and the anchor detection types sent to native code. The
    callbacks delivered to the installed listeners are recorded in order. */
module ARSceneJava {
  import opened Wrappers

  // ---------------------------------------------------------------------------
  // Tracking state and reason
  // ---------------------------------------------------------------------------

  datatype TrackingState = Unavailable | Limited | Normal

  /** TrackingState.getId. */
  function TrackingStateId(s: TrackingState): int
  {
    match s
    case Unavailable => 1
    case Limited => 2
    case Normal => 3
  }

  /** getTrackingState: 1, 2 and 3 are the three states and any other
      value is Unavailable. */
  function GetTrackingState(n: int): (s: TrackingState)
    ensures s == Limited <==> n == 2
    ensures s == Normal <==> n == 3
    ensures s == Unavailable <==> n != 2 && n != 3
  {
    match n
    case 1 => Unavailable
    case 2 => Limited
    case 3 => Normal
    case _ => Unavailable
  }

  /** getTrackingState undoes getId, and getId of a decoded valid id gives
      the id back. */
  lemma TrackingStateIdRoundTrip(s: TrackingState, n: int)
    ensures GetTrackingState(TrackingStateId(s)) == s
    ensures 1 <= n <= 3 ==> TrackingStateId(GetTrackingState(n)) == n
  {
  }

  datatype TrackingStateReason = NoReason | ExcessiveMotion | InsufficientFeatures

  /** TrackingStateReason.getId. */
  function TrackingStateReasonId(r: TrackingStateReason): int
  {
    match r
    case NoReason => 1
    case ExcessiveMotion => 2
    case InsufficientFeatures => 3
  }

  /** getTrackingStateReason: 1, 2 and 3 are the three reasons and any
      other value is NONE. */
  function GetTrackingStateReason(n: int): (r: TrackingStateReason)
    ensures r == ExcessiveMotion <==> n == 2
    ensures r == InsufficientFeatures <==> n == 3
    ensures r == NoReason <==> n != 2 && n != 3
  {
    match n
    case 1 => NoReason
    case 2 => ExcessiveMotion
    case 3 => InsufficientFeatures
    case _ => NoReason
  }

  lemma TrackingStateReasonIdRoundTrip(r: TrackingStateReason, n: int)
    ensures GetTrackingStateReason(TrackingStateReasonId(r)) == r
    ensures 1 <= n <= 3 ==> TrackingStateReasonId(GetTrackingStateReason(n)) == n
  {
  }

  // ---------------------------------------------------------------------------
  // Anchor detection types
  // ---------------------------------------------------------------------------

  /** ViroViewARCore.AnchorDetectionType, in declaration order. */
  datatype AnchorDetectionType = PlanesHorizontal | PlanesVertical

  function AnchorDetectionTypeString(t: AnchorDetectionType): string
  {
    match t
    case PlanesHorizontal => "PlanesHorizontal"
    case PlanesVertical => "PlanesVertical"
  }

  /** An EnumSet iterated in declaration order. */
  function EnumSetOrder(types: set<AnchorDetectionType>): (order: seq<AnchorDetectionType>)
    ensures |order| == |types|
    ensures forall t :: t in types <==> t in order
    ensures forall i, j :: 0 <= i < j < |order| ==> order[i] != order[j]
  {
    var h := if PlanesHorizontal in types then [PlanesHorizontal] else [];
    var v := if PlanesVertical in types then [PlanesVertical] else [];
    var hs: set<AnchorDetectionType> := if PlanesHorizontal in types then {PlanesHorizontal} else {};
    var vs: set<AnchorDetectionType> := if PlanesVertical in types then {PlanesVertical} else {};
    assert forall t :: t in types <==> t in hs + vs by {
      forall t ensures t in types <==> t in hs + vs {
        if t.PlanesHorizontal? { } else { }
      }
    }
    assert types == hs + vs;
    h + v
  }

  // ---------------------------------------------------------------------------
  // Listener callbacks
  // ---------------------------------------------------------------------------

  /** A callback delivered to a listener. Anchors are identified by their
      ids; an ARNode by its node id, None for a null node. */
  datatype Callback =
    | TrackingInitialized
    | TrackingUpdated(state: TrackingState, reason: TrackingStateReason)
    | AnchorFound(anchor: string, node: Option<int>)
    | AnchorRemoved(anchor: string, node: Option<int>)
    | HostSuccess(callback: nat, cloudAnchor: string, nodeId: int)
    | HostFailure(callback: nat, error: string)
    | ResolveSuccess(callback: nat, cloudAnchor: string, nodeId: int)
    | ResolveFailure(callback: nat, error: string)

  /** The number of tracking-initialized callbacks among the delivered ones. */
  function InitializedCount(delivered: seq<Callback>): nat
  {
    multiset(delivered)[TrackingInitialized]
  }

  /** A request id is sent to native code at most once. */
  predicate NoRepeats(requests: seq<string>)
  {
    forall i, j :: 0 <= i < j < |requests| ==> requests[i] != requests[j]
  }

  class ARScene {
    var hasListener: bool
    var hasTrackingInitialized: bool
    var hostCallbacks: map<string, nat>
    var resolveCallbacks: map<string, nat>
    /** The anchor ids sent to nativeHostCloudAnchor, in order. */
    var hostRequests: seq<string>
    /** The cloud ids sent to nativeResolveCloudAnchor, in order. */
    var resolveRequests: seq<string>
    /** The node ids held in the static ARNode map. */
    var arNodes: set<int>
    var detectionTypes: seq<string>
    var delivered: seq<Callback>

    /** The bookkeeping every operation keeps: tracking initialization is
        reported exactly once once it has happened, and the native side
        receives each pending host or resolve request exactly once. */
    ghost predicate Valid()
      reads this
    {
      InitializedCount(delivered) == (if hasTrackingInitialized then 1 else 0) &&
      NoRepeats(hostRequests) && (forall id :: id in hostRequests <==> id in hostCallbacks) &&
      NoRepeats(resolveRequests) && (forall id :: id in resolveRequests <==> id in resolveCallbacks)
    }

    constructor ()
      ensures Valid() && !hasListener && !hasTrackingInitialized
      ensures hostCallbacks == map[] && resolveCallbacks == map[] && hostRequests == [] && resolveRequests == []
      ensures arNodes == {} && detectionTypes == [] && delivered == []
    {
      hasListener, hasTrackingInitialized := false, false;
      hostCallbacks, resolveCallbacks := map[], map[];
      hostRequests, resolveRequests := [], [];
      arNodes, detectionTypes, delivered := {}, [], [];
    }

    method SetListener(listener: bool)
      modifies this`hasListener
      ensures hasListener == listener
    {
      hasListener := listener;
    }

    /** onTrackingUpdated: nothing without a listener; otherwise the first
        Normal state delivers onTrackingInitialized, once, before the
        update itself. */
    method OnTrackingUpdated(stateId: int, reasonId: int)
      requires Valid()
      modifies this`hasTrackingInitialized, this`delivered
      ensures Valid()
      ensures !hasListener ==> delivered == old(delivered) && hasTrackingInitialized == old(hasTrackingInitialized)
      ensures hasListener ==> hasTrackingInitialized == (old(hasTrackingInitialized) || GetTrackingState(stateId) == Normal)
      ensures hasListener ==>
        delivered == old(delivered) +
        (if GetTrackingState(stateId) == Normal && !old(hasTrackingInitialized) then [TrackingInitialized] else []) +
        [TrackingUpdated(GetTrackingState(stateId), GetTrackingStateReason(reasonId))]
    {
      if !hasListener {
        return;
      }
      var state := GetTrackingState(stateId);
      if state == Normal && !hasTrackingInitialized {
        hasTrackingInitialized := true;
        delivered := delivered + [TrackingInitialized];
      }
      delivered := delivered + [TrackingUpdated(GetTrackingState(stateId), GetTrackingStateReason(reasonId))];
    }

    /** hostCloudAnchor: a request for an anchor already in the callback
        map is ignored; otherwise the callback is stored and the anchor
        sent to native code. */
    method HostCloudAnchor(anchorId: string, callback: nat)
      requires Valid()
      modifies this`hostCallbacks, this`hostRequests
      ensures Valid()
      ensures anchorId in old(hostCallbacks) ==> hostCallbacks == old(hostCallbacks) && hostRequests == old(hostRequests)
      ensures anchorId !in old(hostCallbacks) ==>
        hostCallbacks == old(hostCallbacks)[anchorId := callback] && hostRequests == old(hostRequests) + [anchorId]
    {
      if anchorId in hostCallbacks {
        return;
      }
      hostCallbacks := hostCallbacks[anchorId := callback];
      hostRequests := hostRequests + [anchorId];
    }

    /** resolveCloudAnchor: the same de-duplication keyed by cloud id. */
    method ResolveCloudAnchor(cloudAnchorId: string, callback: nat)
      requires Valid()
      modifies this`resolveCallbacks, this`resolveRequests
      ensures Valid()
      ensures cloudAnchorId in old(resolveCallbacks) ==>
        resolveCallbacks == old(resolveCallbacks) && resolveRequests == old(resolveRequests)
      ensures cloudAnchorId !in old(resolveCallbacks) ==>
        resolveCallbacks == old(resolveCallbacks)[cloudAnchorId := callback] &&
        resolveRequests == old(resolveRequests) + [cloudAnchorId]
    {
      if cloudAnchorId in resolveCallbacks {
        return;
      }
      resolveCallbacks := resolveCallbacks[cloudAnchorId := callback];
      resolveRequests := resolveRequests + [cloudAnchorId];
    }

    /** onHostSuccess: the stored callback, if any, receives the cloud
        anchor and the node; the entry stays in the map. */
    method OnHostSuccess(originalAnchorId: string, cloudAnchorId: string, arNodeId: int)
      requires Valid()
      modifies this`delivered
      ensures Valid()
      ensures originalAnchorId in hostCallbacks ==>
        delivered == old(delivered) + [HostSuccess(hostCallbacks[originalAnchorId], cloudAnchorId, arNodeId)]
      ensures originalAnchorId !in hostCallbacks ==> delivered == old(delivered)
    {
      if originalAnchorId in hostCallbacks {
        delivered := delivered + [HostSuccess(hostCallbacks[originalAnchorId], cloudAnchorId, arNodeId)];
      }
    }

    /** onHostFailure. */
    method OnHostFailure(originalAnchorId: string, error: string)
      requires Valid()
      modifies this`delivered
      ensures Valid()
      ensures originalAnchorId in hostCallbacks ==>
        delivered == old(delivered) + [HostFailure(hostCallbacks[originalAnchorId], error)]
      ensures originalAnchorId !in hostCallbacks ==> delivered == old(delivered)
    {
      if originalAnchorId in hostCallbacks {
        delivered := delivered + [HostFailure(hostCallbacks[originalAnchorId], error)];
      }
    }

    /** onResolveSuccess: an anchor whose cloud id differs from the
        requested one raises IllegalStateException; otherwise the stored
        callback, if any, receives the anchor and the node. */
    method OnResolveSuccess(cloudAnchorId: string, anchorCloudId: string, arNodeId: int)
      returns (r: Result<(), string>)
      requires Valid()
      modifies this`delivered
      ensures Valid()
      ensures r.Err? <==> cloudAnchorId != anchorCloudId
      ensures r.Err? || cloudAnchorId !in resolveCallbacks ==> delivered == old(delivered)
      ensures r.Ok? && cloudAnchorId in resolveCallbacks ==>
        delivered == old(delivered) + [ResolveSuccess(resolveCallbacks[cloudAnchorId], anchorCloudId, arNodeId)]
    {
      if cloudAnchorId != anchorCloudId {
        return Err("Resolved cloud anchor ID [" + anchorCloudId + "] does not match requested ID [" + cloudAnchorId + "]!");
      }
      if cloudAnchorId in resolveCallbacks {
        delivered := delivered + [ResolveSuccess(resolveCallbacks[cloudAnchorId], anchorCloudId, arNodeId)];
      }
      return Ok(());
    }

    /** onResolveFailure. */
    method OnResolveFailure(originalAnchorId: string, error: string)
      requires Valid()
      modifies this`delivered
      ensures Valid()
      ensures originalAnchorId in resolveCallbacks ==>
        delivered == old(delivered) + [ResolveFailure(resolveCallbacks[originalAnchorId], error)]
      ensures originalAnchorId !in resolveCallbacks ==> delivered == old(delivered)
    {
      if originalAnchorId in resolveCallbacks {
        delivered := delivered + [ResolveFailure(resolveCallbacks[originalAnchorId], error)];
      }
    }

    /** onAnchorFound: a node is created, and joins the ARNode map, only
        for a non-zero native reference, listener or not; the node id the
        creation assigns is passed in. */
    method OnAnchorFound(anchorId: string, nodeNativeRef: int, createdNodeId: int)
      requires Valid()
      modifies this`arNodes, this`delivered
      ensures Valid()
      ensures arNodes == if nodeNativeRef != 0 then old(arNodes) + {createdNodeId} else old(arNodes)
      ensures hasListener ==>
        delivered == old(delivered) + [AnchorFound(anchorId, if nodeNativeRef != 0 then Some(createdNodeId) else None)]
      ensures !hasListener ==> delivered == old(delivered)
    {
      var node: Option<int> := None;
      if nodeNativeRef != 0 {
        arNodes := arNodes + {createdNodeId};
        node := Some(createdNodeId);
      }
      if hasListener {
        delivered := delivered + [AnchorFound(anchorId, node)];
      }
    }

    /** onAnchorRemoved: a non-zero node id leaves the ARNode map even
        without a listener; the listener gets the removed node, or null
        when the map did not hold it. */
    method OnAnchorRemoved(anchorId: string, nodeId: int)
      requires Valid()
      modifies this`arNodes, this`delivered
      ensures Valid()
      ensures arNodes == if nodeId != 0 then old(arNodes) - {nodeId} else old(arNodes)
      ensures hasListener ==>
        delivered == old(delivered) + [AnchorRemoved(anchorId, if nodeId != 0 && nodeId in old(arNodes) then Some(nodeId) else None)]
      ensures !hasListener ==> delivered == old(delivered)
    {
      var node: Option<int> := None;
      if nodeId != 0 {
        if nodeId in arNodes {
          node := Some(nodeId);
        }
        arNodes := arNodes - {nodeId};
      }
      if hasListener {
        delivered := delivered + [AnchorRemoved(anchorId, node)];
      }
    }

    /** setAnchorDetectionTypes: an array of the set's size holding each
        type's string value, in the set's iteration order. */
    method SetAnchorDetectionTypes(types: set<AnchorDetectionType>)
      modifies this`detectionTypes
      ensures |detectionTypes| == |types|
      ensures forall i :: 0 <= i < |detectionTypes| ==> detectionTypes[i] == AnchorDetectionTypeString(EnumSetOrder(types)[i])
      ensures forall t :: t in types <==> AnchorDetectionTypeString(t) in detectionTypes
    {
      var order := EnumSetOrder(types);
      var sent: seq<string> := [];
      var i := 0;
      while i < |order|
        invariant 0 <= i <= |order|
        invariant |sent| == i
        invariant forall k :: 0 <= k < i ==> sent[k] == AnchorDetectionTypeString(order[k])
      {
        sent := sent + [AnchorDetectionTypeString(order[i])];
        i := i + 1;
      }
      detectionTypes := sent;
      forall t | AnchorDetectionTypeString(t) in detectionTypes
        ensures t in types
      {
        var k :| 0 <= k < |sent| && sent[k] == AnchorDetectionTypeString(t);
        assert order[k] == t;
      }
    }
  }
}
