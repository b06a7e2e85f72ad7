/** The Java scene-graph Node: its enum string maps, the child and parent
    links, the nearest enclosing portal scene, the exclusive geometry and
    particle-emitter slots, the event listeners and the event actions they
    enable, and the native transform delegate. Attached geometries,
    emitters and listeners are identified by opaque references. */
module SceneNode {
  import opened Wrappers
  import opened Strings

  // ---------------------------------------------------------------------------
  // DragType and TransformBehavior
  // ---------------------------------------------------------------------------

  datatype DragType = FixedDistance | FixedDistanceOrigin | FixedToWorld | FixedToPlane

  function DragTypeString(d: DragType): string
  {
    match d
    case FixedDistance => "FixedDistance"
    case FixedDistanceOrigin => "FixedDistanceOrigin"
    case FixedToWorld => "FixedToWorld"
    case FixedToPlane => "FixedToPlane"
  }

  /** The static map of DragType, keyed by the lower-cased string values. */
  const DragTypeMap: map<string, DragType> :=
    map["fixeddistance" := FixedDistance, "fixeddistanceorigin" := FixedDistanceOrigin,
        "fixedtoworld" := FixedToWorld, "fixedtoplane" := FixedToPlane]

  /** DragType.valueFromString: a lookup of the lower-cased name. */
  function DragTypeValueFromString(s: string): Option<DragType>
  {
    if ToLower(s) in DragTypeMap then Some(DragTypeMap[ToLower(s)]) else None
  }

  lemma DragTypeKeys(d: DragType)
    ensures ToLower(DragTypeString(d)) in DragTypeMap && DragTypeMap[ToLower(DragTypeString(d))] == d
  {
    match d
    case FixedDistance => assert ToLower("FixedDistance") == "fixeddistance";
    case FixedDistanceOrigin => assert ToLower("FixedDistanceOrigin") == "fixeddistanceorigin";
    case FixedToWorld => assert ToLower("FixedToWorld") == "fixedtoworld";
    case FixedToPlane => assert ToLower("FixedToPlane") == "fixedtoplane";
  }

  /** valueFromString finds a drag type exactly when the name is its string
      value up to case; in particular every string value reads back as its
      own drag type. */
  lemma DragTypeValueFromStringIff(s: string, d: DragType)
    ensures DragTypeValueFromString(s) == Some(d) <==> EqualsIgnoreCase(s, DragTypeString(d))
  {
    DragTypeKeys(d);
    ToLowerIff(s, DragTypeString(d));
    var r := DragTypeValueFromString(s);
    if r.Some? && r != Some(d) {
      DragTypeKeys(r.value);
      ToLowerIff(s, DragTypeString(r.value));
    }
  }

  datatype TransformBehavior = Billboard | BillboardX | BillboardY

  function TransformBehaviorString(b: TransformBehavior): string
  {
    match b
    case Billboard => "billboard"
    case BillboardX => "billboardX"
    case BillboardY => "billboardY"
  }

  const TransformBehaviorMap: map<string, TransformBehavior> :=
    map["billboard" := Billboard, "billboardx" := BillboardX, "billboardy" := BillboardY]

  /** TransformBehavior.valueFromString. */
  function TransformBehaviorValueFromString(s: string): Option<TransformBehavior>
  {
    if ToLower(s) in TransformBehaviorMap then Some(TransformBehaviorMap[ToLower(s)]) else None
  }

  lemma TransformBehaviorKeys(b: TransformBehavior)
    ensures ToLower(TransformBehaviorString(b)) in TransformBehaviorMap
    ensures TransformBehaviorMap[ToLower(TransformBehaviorString(b))] == b
  {
    match b
    case Billboard => assert ToLower("billboard") == "billboard";
    case BillboardX => assert ToLower("billboardX") == "billboardx";
    case BillboardY => assert ToLower("billboardY") == "billboardy";
  }

  /** valueFromString finds a behaviour exactly when the name is its string
      value up to case. */
  lemma TransformBehaviorValueFromStringIff(s: string, b: TransformBehavior)
    ensures TransformBehaviorValueFromString(s) == Some(b) <==> EqualsIgnoreCase(s, TransformBehaviorString(b))
  {
    TransformBehaviorKeys(b);
    ToLowerIff(s, TransformBehaviorString(b));
    var r := TransformBehaviorValueFromString(s);
    if r.Some? && r != Some(b) {
      TransformBehaviorKeys(r.value);
      ToLowerIff(s, TransformBehaviorString(r.value));
    }
  }

  // ---------------------------------------------------------------------------
  // Lists
  // ---------------------------------------------------------------------------

  /** List.remove(Object): the first occurrence goes, the rest keep their
      order; a missing element leaves the list as it was. */
  function RemoveFirst<T(==)>(s: seq<T>, x: T): (r: seq<T>)
    ensures x !in s ==> r == s
    ensures x in s ==> |r| == |s| - 1
    ensures multiset(r) == multiset(s) - multiset{x}
    ensures |s| > 0 && s[0] == x ==> r == s[1..]
  {
    if |s| == 0 then []
    else if s[0] == x then s[1..]
    else
      assert s == [s[0]] + s[1..];
      [s[0]] + RemoveFirst(s[1..], x)
  }

  /** The elements of s that already occurred earlier in s, in order: what
      is left of a list after the first occurrence of each element is
      removed. */
  function Repeats<T(==)>(s: seq<T>): (r: seq<T>)
    ensures |r| <= |s|
    ensures forall x :: x in r ==> x in s
  {
    if |s| == 0 then []
    else
      var init := s[..|s| - 1];
      Repeats(init) + (if s[|s| - 1] in init then [s[|s| - 1]] else [])
  }

  /** No element occurs twice. */
  predicate Distinct<T(==)>(s: seq<T>)
  {
    forall i, j :: 0 <= i < j < |s| ==> s[i] != s[j]
  }

  /** Removing each element's first occurrence empties a list exactly when
      no element occurs twice in it. */
  lemma {:induction false} RepeatsEmptyIff<T>(s: seq<T>)
    ensures Repeats(s) == [] <==> Distinct(s)
  {
    if |s| > 0 {
      var init := s[..|s| - 1];
      RepeatsEmptyIff(init);
      if s[|s| - 1] in init {
        var j :| 0 <= j < |init| && init[j] == s[|s| - 1];
        assert s[j] == s[|s| - 1];
      } else {
        if Distinct(init) {
          forall i, j | 0 <= i < j < |s|
            ensures s[i] != s[j]
          {
            if j == |s| - 1 {
              assert s[i] == init[i];
            } else {
              assert s[i] == init[i] && s[j] == init[j];
            }
          }
        } else {
          var i, j :| 0 <= i < j < |init| && init[i] == init[j];
          assert s[i] == s[j];
        }
      }
    }
  }

  /** List.remove on a list whose element x first occurs just after a
      prefix a. */
  lemma {:induction false} RemoveFirstAfter<T>(a: seq<T>, x: T, b: seq<T>)
    requires x !in a
    ensures RemoveFirst(a + [x] + b, x) == a + b
  {
    var s := a + [x] + b;
    if |a| == 0 {
      assert s == [x] + b && s[1..] == b;
    } else {
      assert s[1..] == a[1..] + [x] + b;
      RemoveFirstAfter(a[1..], x, b);
      assert RemoveFirst(s, x) == [a[0]] + RemoveFirst(s[1..], x) by {
        assert s[0] == a[0] && a[0] != x;
      }
      ConsAppend(a, b);
    }
  }

  lemma ConsAppend<T>(a: seq<T>, b: seq<T>)
    requires |a| > 0
    ensures [a[0]] + (a[1..] + b) == a + b
  {
    assert a == [a[0]] + a[1..];
  }

  /** Removing first occurrences along s, one element further: the prefix
      s[..i + 1] ends in s[i] after s[..i]. */
  lemma PrefixLast<T>(s: seq<T>, i: int)
    requires 0 <= i < |s|
    ensures s[..i + 1][..i] == s[..i] && s[..i + 1][i] == s[i]
    ensures s[i..] == [s[i]] + s[i + 1..]
  {
  }

  /** The elements of s[..i + 1] are those of s[..i] and s[i]. */
  lemma PrefixMembers<T>(s: seq<T>, i: int)
    requires 0 <= i < |s|
    ensures forall x :: x in s[..i + 1] <==> x in s[..i] || x == s[i]
  {
    assert s[..i + 1] == s[..i] + [s[i]];
  }

  /** A repeat s[i] stays in the list. */
  lemma RepeatKept<T>(s: seq<T>, i: int)
    requires 0 <= i < |s| && s[i] in s[..i]
    ensures Repeats(s[..i]) + s[i..] == Repeats(s[..i + 1]) + s[i + 1..]
  {
    PrefixLast(s, i);
    assert Repeats(s[..i + 1]) == Repeats(s[..i]) + [s[i]];
  }

  /** A first occurrence s[i] is the one List.remove takes out. */
  lemma FirstOccurrenceRemoved<T>(s: seq<T>, i: int)
    requires 0 <= i < |s| && s[i] !in s[..i]
    ensures RemoveFirst(Repeats(s[..i]) + s[i..], s[i]) == Repeats(s[..i + 1]) + s[i + 1..]
  {
    PrefixLast(s, i);
    var done := Repeats(s[..i]);
    assert Repeats(s[..i + 1]) == done;
    assert s[i] !in done;
    assert done + s[i..] == done + [s[i]] + s[i + 1..];
    RemoveFirstAfter(done, s[i], s[i + 1..]);
  }

  // ---------------------------------------------------------------------------
  // Event delegate
  // ---------------------------------------------------------------------------

  /** The event actions a node can report to its listeners. */
  datatype EventAction = OnClick | OnHover | OnTouch | OnSwipe | OnScroll | OnDrag | OnFuse
                       | OnPinch | OnRotate | OnPointCloudUpdate | OnCameraHitTest

  /** The node's event delegate: which actions it forwards. */
  class EventDelegate {
    var enabled: set<EventAction>

    constructor ()
      ensures enabled == {}
    {
      enabled := {};
    }

    method SetEventEnabled(action: EventAction, on: bool)
      modifies this`enabled
      ensures enabled == if on then old(enabled) + {action} else old(enabled) - {action}
    {
      enabled := if on then enabled + {action} else enabled - {action};
    }
  }

  /** Long.MAX_VALUE: the reference of no native delegate. */
  const InvalidRef: int := 0x7FFF_FFFF_FFFF_FFFF

  // ---------------------------------------------------------------------------
  // Node
  // ---------------------------------------------------------------------------

  class Node {
    /** Whether this node is a PortalScene. */
    const isPortalScene: bool
    const eventDelegate: EventDelegate

    var children: seq<Node>
    var parent: Option<Node>
    var geometry: Option<nat>
    var particleEmitter: Option<nat>
    var fixedParticleEmitter: Option<nat>
    /** The listener installed for each event action, if any. */
    var listeners: map<EventAction, nat>
    var transformDelegate: int
    var transformListener: Option<nat>

    constructor (portal: bool)
      ensures isPortalScene == portal && fresh(eventDelegate) && eventDelegate.enabled == {}
      ensures children == [] && parent == None
      ensures geometry == None && particleEmitter == None && fixedParticleEmitter == None
      ensures listeners == map[] && transformDelegate == InvalidRef && transformListener == None
    {
      isPortalScene := portal;
      eventDelegate := new EventDelegate();
      children, parent := [], None;
      geometry, particleEmitter, fixedParticleEmitter := None, None, None;
      listeners := map[];
      transformDelegate, transformListener := InvalidRef, None;
    }

    /** addChildNode: the child goes to the end of the children and names
        this node as its parent. */
    method AddChildNode(child: Node)
      modifies this`children, child`parent
      ensures children == old(children) + [child]
      ensures child.parent == Some(this)
    {
      children := children + [child];
      child.parent := Some(this);
    }

    function ParentSet(): set<Node>
      reads this`parent
    {
      if parent.Some? then {parent.value} else {}
    }

    /** removeFromParentNode: with a parent, this node leaves the parent's
        children (its first occurrence) and the parent link is cleared;
        without one nothing changes. */
    method RemoveFromParentNode()
      modifies this`parent, ParentSet()`children
      ensures parent == None
      ensures old(parent).Some? ==> old(parent).value.children == RemoveFirst(old(parent.value.children), this)
    {
      if parent.Some? {
        var p := parent.value;
        p.children := RemoveFirst(p.children, this);
        parent := None;
      }
    }

    /** Every child names this node as its parent, as addChildNode sets it.
        A child may appear more than once: addChildNode does not check. */
    predicate ChildrenLinked()
      reads this`children, (set c | c in children)`parent
    {
      forall c :: c in children ==> c.parent == Some(this)
    }

    /** removeAllChildNodes: each child of a copy of the list is removed
        from its parent in turn. The first occurrence of a child unlinks it,
        so every later occurrence is skipped and stays in the list. */
    method RemoveAllChildNodes()
      requires ChildrenLinked()
      modifies this`children, (set c | c in children)`parent
      ensures children == Repeats(old(children))
      ensures forall c :: c in old(children) ==> c.parent == None
    {
      var copy := children;
      var i := 0;
      ghost var seen: set<Node> := {};
      while i < |copy|
        invariant 0 <= i <= |copy|
        invariant children == Repeats(copy[..i]) + copy[i..]
        invariant forall c :: c in seen <==> c in copy[..i]
        invariant forall c :: c in copy ==> c.parent == if c in seen then None else Some(this)
      {
        seen := RemoveNextChild(copy, i, seen);
        i := i + 1;
      }
      assert copy[..i] == copy;
    }

    /** One pass of removeAllChildNodes' loop: copy[i] is removed from its
        parent, which takes it out of the list exactly when it is the first
        occurrence. */
    method RemoveNextChild(copy: seq<Node>, i: nat, ghost seen: set<Node>) returns (ghost seen': set<Node>)
      requires i < |copy|
      requires children == Repeats(copy[..i]) + copy[i..]
      requires forall c :: c in seen <==> c in copy[..i]
      requires forall c :: c in copy ==> c.parent == if c in seen then None else Some(this)
      modifies this`children, {copy[i]}`parent
      ensures children == Repeats(copy[..i + 1]) + copy[i + 1..]
      ensures forall c :: c in seen' <==> c in copy[..i + 1]
      ensures forall c :: c in copy ==> c.parent == if c in seen' then None else Some(this)
    {
      var child := copy[i];
      seen' := seen + {child};
      assert forall c :: c in seen' <==> c in copy[..i + 1] by {
        PrefixMembers(copy, i);
      }
      if child.parent.None? {
        assert children == Repeats(copy[..i + 1]) + copy[i + 1..] by {
          RepeatKept(copy, i);
        }
        child.RemoveFromParentNode();
      } else {
        assert RemoveFirst(children, child) == Repeats(copy[..i + 1]) + copy[i + 1..] by {
          assert child !in seen;
          FirstOccurrenceRemoved(copy, i);
        }
        child.RemoveFromParentNode();
      }
    }

    /** setGeometry: the geometry always takes the argument; a geometry
        replaces any particle emitter. */
    method SetGeometry(g: Option<nat>)
      modifies this`geometry, this`particleEmitter
      ensures geometry == g
      ensures g.Some? ==> particleEmitter == None
      ensures g.None? ==> particleEmitter == old(particleEmitter)
      ensures old(EmittersExclusive()) ==> EmittersExclusive()
    {
      if g.Some? {
        RemoveParticleEmitter();
      }
      geometry := g;
    }

    /** At most one of the two emitters is attached. */
    predicate EmittersExclusive()
      reads this`particleEmitter, this`fixedParticleEmitter
    {
      !(particleEmitter.Some? && fixedParticleEmitter.Some?)
    }

    method RemoveParticleEmitter()
      modifies this`particleEmitter
      ensures particleEmitter == None
    {
      particleEmitter := None;
    }

    method RemoveFixedParticleEmitter()
      modifies this`fixedParticleEmitter
      ensures fixedParticleEmitter == None
    {
      fixedParticleEmitter := None;
    }

    /** setFixedParticleEmitter: the slot takes the argument; a non-null
        emitter detaches the particle emitter, a null one only itself. */
    method SetFixedParticleEmitter(e: Option<nat>)
      modifies this`particleEmitter, this`fixedParticleEmitter
      ensures fixedParticleEmitter == e && EmittersExclusive()
      ensures e.Some? ==> particleEmitter == None
      ensures e.None? ==> particleEmitter == old(particleEmitter)
    {
      fixedParticleEmitter := e;
      if e.None? {
        RemoveFixedParticleEmitter();
        return;
      }
      if particleEmitter.Some? {
        RemoveParticleEmitter();
      }
    }

    /** setParticleEmitter: the mirror image of setFixedParticleEmitter. */
    method SetParticleEmitter(e: Option<nat>)
      modifies this`particleEmitter, this`fixedParticleEmitter
      ensures particleEmitter == e && EmittersExclusive()
      ensures e.Some? ==> fixedParticleEmitter == None
      ensures e.None? ==> fixedParticleEmitter == old(fixedParticleEmitter)
    {
      particleEmitter := e;
      if e.None? {
        RemoveParticleEmitter();
        return;
      }
      if fixedParticleEmitter.Some? {
        RemoveFixedParticleEmitter();
      }
    }

    /** The event delegate forwards exactly the actions that have a
        listener. */
    predicate EventsMatchListeners()
      reads this`listeners, eventDelegate`enabled
    {
      forall a :: a in eventDelegate.enabled <==> a in listeners
    }

    /** The listener setters (setClickListener through setARHitTestListener):
        the listener is installed or removed, and its action is enabled
        exactly when the listener is non-null. */
    method SetListener(action: EventAction, listener: Option<nat>)
      modifies this`listeners, eventDelegate`enabled
      ensures listener.Some? ==> listeners == old(listeners)[action := listener.value]
      ensures listener.None? ==> listeners == old(listeners) - {action}
      ensures action in eventDelegate.enabled <==> listener.Some?
      ensures forall a :: a != action ==> (a in eventDelegate.enabled <==> a in old(eventDelegate.enabled))
      ensures old(EventsMatchListeners()) ==> EventsMatchListeners()
    {
      if listener.Some? {
        listeners := listeners[action := listener.value];
        eventDelegate.SetEventEnabled(action, true);
      } else {
        listeners := listeners - {action};
        eventDelegate.SetEventEnabled(action, false);
      }
    }

    /** setTransformListener: a native delegate is created, with the given
        reference, only when none exists yet; the listener is replaced
        either way. */
    method SetTransformListener(listener: Option<nat>, createdDelegate: int)
      modifies this`transformDelegate, this`transformListener
      ensures transformListener == listener
      ensures old(transformDelegate) == InvalidRef ==> transformDelegate == createdDelegate
      ensures old(transformDelegate) != InvalidRef ==> transformDelegate == old(transformDelegate)
    {
      if transformDelegate == InvalidRef {
        transformDelegate := createdDelegate;
      }
      transformListener := listener;
    }

    /** removeTransformListener: only an existing delegate is removed, and
        then the listener is cleared too. */
    method RemoveTransformListener()
      modifies this`transformDelegate, this`transformListener
      ensures transformDelegate == InvalidRef
      ensures old(transformDelegate) != InvalidRef ==> transformListener == None
      ensures old(transformDelegate) == InvalidRef ==> transformListener == old(transformListener)
    {
      if transformDelegate != InvalidRef {
        transformListener := None;
        transformDelegate := InvalidRef;
      }
    }

    /** The parent links from this node upward: chain[0] is the parent and
        each next entry the parent of the one before; the last has none. */
    ghost predicate AncestorChain(chain: seq<Node>)
      reads this`parent, (set a | a in chain)`parent
    {
      (|chain| == 0 <==> parent.None?) &&
      (|chain| > 0 ==> parent == Some(chain[0]) && chain[|chain| - 1].parent.None?) &&
      (forall i :: 0 <= i < |chain| - 1 ==> chain[i].parent == Some(chain[i + 1]))
    }

    /** getParentPortalScene: walks up the parent links and returns the
        first portal scene, or null at the root. The walk ends because the
        ancestors form a finite chain. */
    method GetParentPortalScene(ghost chain: seq<Node>) returns (r: Option<Node>)
      requires AncestorChain(chain)
      ensures r == FirstPortal(chain)
    {
      r := None;
      var current := parent;
      ghost var i := 0;
      while current.Some?
        invariant 0 <= i <= |chain|
        invariant current == (if i < |chain| then Some(chain[i]) else None)
        invariant FirstPortal(chain) == FirstPortal(chain[i..])
        decreases |chain| - i
      {
        var p := current.value;
        if p.isPortalScene {
          assert chain[i..][0] == p;
          return Some(p);
        }
        assert chain[i..] == [chain[i]] + chain[i + 1..];
        current := p.parent;
        i := i + 1;
      }
    }
  }

  /** The first portal scene of a chain of ancestors, nearest first. */
  function FirstPortal(chain: seq<Node>): (r: Option<Node>)
    ensures r.Some? ==> r.value in chain && r.value.isPortalScene
    ensures r.None? ==> forall a :: a in chain ==> !a.isPortalScene
  {
    if |chain| == 0 then None
    else if chain[0].isPortalScene then Some(chain[0])
    else FirstPortal(chain[1..])
  }

  /** The portal found is the nearest one: the first in the chain. */
  lemma {:induction false} FirstPortalIsNearest(chain: seq<Node>, k: int)
    requires 0 <= k < |chain| && chain[k].isPortalScene
    requires forall j :: 0 <= j < k ==> !chain[j].isPortalScene
    ensures FirstPortal(chain) == Some(chain[k])
  {
    if k > 0 {
      FirstPortalIsNearest(chain[1..], k - 1);
    }
  }
}
