/** The Java PhysicsBody: the values it keeps for its getters, the calls
    it makes to the native physics body, the velocity kept only when
    constant, and the collision listener with its native delegate. */
module PhysicsBodyJava {
  import opened Wrappers

  datatype RigidBodyType = Dynamic | Kinematic | Static

  function RigidBodyTypeString(t: RigidBodyType): string
  {
    match t
    case Dynamic => "dynamic"
    case Kinematic => "kinematic"
    case Static => "static"
  }

  /** Distinct body types reach native code under distinct names. */
  lemma RigidBodyTypeStringsDistinct(t: RigidBodyType, u: RigidBodyType)
    ensures RigidBodyTypeString(t) == RigidBodyTypeString(u) ==> t == u
  {
  }

  datatype Vec3 = Vec3(x: real, y: real, z: real)

  /** Vector.toArray. */
  function ToArray(v: Vec3): seq<real>
  {
    [v.x, v.y, v.z]
  }

  /** A collision shape: its type name and parameters. */
  datatype PhysicsShape = PhysicsShape(shapeType: string, params: seq<real>)

  /** A call made to the native physics body. */
  datatype NativeCall =
    | Init(bodyType: string, mass: real, initShape: Option<string>, initParams: Option<seq<real>>)
    | SetShape(shapeType: string, params: seq<real>)
    | SetMass(mass: real)
    | SetInertia(inertia: seq<real>)
    | SetFriction(friction: real)
    | SetRestitution(restitution: real)
    | SetEnabled(enabled: bool)
    | SetUseGravity(useGravity: bool)
    | SetVelocity(velocity: seq<real>, isConstant: bool)
    | ClearForce
    | ApplyForce(force: seq<real>, position: seq<real>)
    | ApplyTorque(torque: seq<real>)
    | ApplyImpulse(impulse: seq<real>, position: seq<real>)
    | ApplyTorqueImpulse(torque: seq<real>)
    | SetDelegate
    | ClearDelegate(delegate: int)

  /** The mass the native body was last given, at creation or since. */
  function LastMass(calls: seq<NativeCall>): (m: Option<real>)
    ensures m.Some? ==> exists i :: 0 <= i < |calls| && (calls[i] == SetMass(m.value) || (calls[i].Init? && calls[i].mass == m.value))
  {
    if |calls| == 0 then None
    else
      var last := calls[|calls| - 1];
      if last.Init? then Some(last.mass)
      else if last.SetMass? then Some(last.mass)
      else LastMass(calls[..|calls| - 1])
  }

  /** The gravity switch the native body was last given, if any. */
  function LastUseGravity(calls: seq<NativeCall>): (g: Option<bool>)
    ensures g.Some? ==> SetUseGravity(g.value) in calls
  {
    if |calls| == 0 then None
    else if calls[|calls| - 1].SetUseGravity? then Some(calls[|calls| - 1].useGravity)
    else LastUseGravity(calls[..|calls| - 1])
  }

  /** A call that changes neither the mass nor the gravity switch leaves
      both as they were last sent. */
  lemma {:induction false} OtherCallKeepsLast(calls: seq<NativeCall>, c: NativeCall)
    requires !c.Init? && !c.SetMass? && !c.SetUseGravity?
    ensures LastMass(calls + [c]) == LastMass(calls)
    ensures LastUseGravity(calls + [c]) == LastUseGravity(calls)
  {
    assert (calls + [c])[..|calls|] == calls;
  }

  /** Long.MAX_VALUE: the reference of no native delegate. */
  const InvalidRef: int := 0x7FFF_FFFF_FFFF_FFFF

  class PhysicsBody {
    var rigidBodyType: RigidBodyType
    var shape: Option<PhysicsShape>
    var mass: real
    var friction: real
    var restitution: real
    var enabled: bool
    var useGravity: bool
    var velocity: Option<Vec3>
    var collisionListener: Option<nat>
    var physicsDelegate: int
    /** The calls made to the native body, in order. */
    var calls: seq<NativeCall>

    /** The getters report what the native body was last told. */
    predicate MatchesNative()
      reads this`mass, this`useGravity, this`calls
    {
      LastMass(calls) == Some(mass) && (LastUseGravity(calls).None? ==> useGravity) &&
      (LastUseGravity(calls).Some? ==> LastUseGravity(calls).value == useGravity)
    }

    /** The constructor as written: the mass goes to native code but the
        field the getter reads keeps its default of 0. */
    constructor CreateAsWritten(bodyType: RigidBodyType, m: real, s: Option<PhysicsShape>)
      ensures mass == 0.0 && LastMass(calls) == Some(m)
      ensures rigidBodyType == bodyType && shape == s && enabled && useGravity
      ensures friction == 0.5 && restitution == 0.0 && velocity == None
      ensures collisionListener == None && physicsDelegate == InvalidRef
      ensures calls == [Init(RigidBodyTypeString(bodyType), m,
                             if s.Some? then Some(s.value.shapeType) else None,
                             if s.Some? then Some(s.value.params) else None)]
    {
      rigidBodyType, shape, mass := bodyType, s, 0.0;
      enabled, friction, restitution, useGravity := true, 0.5, 0.0, true;
      velocity, collisionListener, physicsDelegate := None, None, InvalidRef;
      calls := [Init(RigidBodyTypeString(bodyType), m,
                     if s.Some? then Some(s.value.shapeType) else None,
                     if s.Some? then Some(s.value.params) else None)];
    }

    /** The constructor keeping the mass it sends. */
    constructor (bodyType: RigidBodyType, m: real, s: Option<PhysicsShape>)
      ensures MatchesNative() && mass == m
      ensures rigidBodyType == bodyType && shape == s && enabled && useGravity
      ensures friction == 0.5 && restitution == 0.0 && velocity == None
      ensures collisionListener == None && physicsDelegate == InvalidRef
      ensures calls == [Init(RigidBodyTypeString(bodyType), m,
                             if s.Some? then Some(s.value.shapeType) else None,
                             if s.Some? then Some(s.value.params) else None)]
    {
      rigidBodyType, shape, mass := bodyType, s, m;
      enabled, friction, restitution, useGravity := true, 0.5, 0.0, true;
      velocity, collisionListener, physicsDelegate := None, None, InvalidRef;
      calls := [Init(RigidBodyTypeString(bodyType), m,
                     if s.Some? then Some(s.value.shapeType) else None,
                     if s.Some? then Some(s.value.params) else None)];
    }

    /** Records one native call that leaves mass and gravity alone. */
    method Send(c: NativeCall)
      requires !c.Init? && !c.SetMass? && !c.SetUseGravity?
      modifies this`calls
      ensures calls == old(calls) + [c]
      ensures LastMass(calls) == LastMass(old(calls)) && LastUseGravity(calls) == LastUseGravity(old(calls))
    {
      OtherCallKeepsLast(calls, c);
      calls := calls + [c];
    }

    method SetShapeTo(s: PhysicsShape)
      modifies this`shape, this`calls
      ensures shape == Some(s) && calls == old(calls) + [SetShape(s.shapeType, s.params)]
      ensures old(MatchesNative()) ==> MatchesNative()
    {
      shape := Some(s);
      Send(SetShape(s.shapeType, s.params));
    }

    method SetMassTo(m: real)
      modifies this`mass, this`calls
      ensures mass == m && calls == old(calls) + [SetMass(m)]
      ensures old(LastUseGravity(calls)) == LastUseGravity(calls)
      ensures old(MatchesNative()) ==> MatchesNative()
    {
      mass := m;
      OtherCallKeepsLastGravity(calls, SetMass(m));
      calls := calls + [SetMass(m)];
    }

    method SetMomentOfInertia(inertia: Vec3)
      modifies this`calls
      ensures calls == old(calls) + [SetInertia(ToArray(inertia))]
      ensures old(MatchesNative()) ==> MatchesNative()
    {
      Send(SetInertia(ToArray(inertia)));
    }

    method SetFrictionTo(f: real)
      modifies this`friction, this`calls
      ensures friction == f && calls == old(calls) + [SetFriction(f)]
      ensures old(MatchesNative()) ==> MatchesNative()
    {
      friction := f;
      Send(SetFriction(f));
    }

    method SetRestitutionTo(r: real)
      modifies this`restitution, this`calls
      ensures restitution == r && calls == old(calls) + [SetRestitution(r)]
      ensures old(MatchesNative()) ==> MatchesNative()
    {
      restitution := r;
      Send(SetRestitution(r));
    }

    method SetEnabledTo(e: bool)
      modifies this`enabled, this`calls
      ensures enabled == e && calls == old(calls) + [SetEnabled(e)]
      ensures old(MatchesNative()) ==> MatchesNative()
    {
      enabled := e;
      Send(SetEnabled(e));
    }

    /** setUseGravity as written: only the native body hears of it, so
        getUseGravity keeps answering what it did before. */
    method SetUseGravityAsWritten(g: bool)
      modifies this`calls
      ensures calls == old(calls) + [SetUseGravity(g)]
      ensures useGravity == old(useGravity) && LastUseGravity(calls) == Some(g)
    {
      calls := calls + [SetUseGravity(g)];
    }

    /** setUseGravity storing the switch for its getter as well. */
    method SetUseGravityTo(g: bool)
      modifies this`useGravity, this`calls
      ensures useGravity == g && calls == old(calls) + [SetUseGravity(g)]
      ensures LastMass(calls) == LastMass(old(calls))
      ensures old(MatchesNative()) ==> MatchesNative()
    {
      useGravity := g;
      OtherCallKeepsLastMass(calls, SetUseGravity(g));
      calls := calls + [SetUseGravity(g)];
    }

    /** setVelocity: the getter's velocity changes only for a constant
        velocity; the native body gets either kind. */
    method SetVelocityTo(v: Vec3, isConstant: bool)
      modifies this`velocity, this`calls
      ensures isConstant ==> velocity == Some(v)
      ensures !isConstant ==> velocity == old(velocity)
      ensures calls == old(calls) + [SetVelocity(ToArray(v), isConstant)]
      ensures old(MatchesNative()) ==> MatchesNative()
    {
      if isConstant {
        velocity := Some(v);
      }
      Send(SetVelocity(ToArray(v), isConstant));
    }

    method ClearForces()
      modifies this`calls
      ensures calls == old(calls) + [ClearForce]
    {
      Send(ClearForce);
    }

    method ApplyForceAt(force: Vec3, position: Vec3)
      modifies this`calls
      ensures calls == old(calls) + [ApplyForce(ToArray(force), ToArray(position))]
    {
      Send(ApplyForce(ToArray(force), ToArray(position)));
    }

    method ApplyTorqueOf(torque: Vec3)
      modifies this`calls
      ensures calls == old(calls) + [ApplyTorque(ToArray(torque))]
    {
      Send(ApplyTorque(ToArray(torque)));
    }

    method ApplyImpulseAt(impulse: Vec3, position: Vec3)
      modifies this`calls
      ensures calls == old(calls) + [ApplyImpulse(ToArray(impulse), ToArray(position))]
    {
      Send(ApplyImpulse(ToArray(impulse), ToArray(position)));
    }

    method ApplyTorqueImpulseOf(torque: Vec3)
      modifies this`calls
      ensures calls == old(calls) + [ApplyTorqueImpulse(ToArray(torque))]
    {
      Send(ApplyTorqueImpulse(ToArray(torque)));
    }

    /** A listener is installed exactly while a native delegate exists. */
    predicate ListenerMatchesDelegate()
      reads this`collisionListener, this`physicsDelegate
    {
      collisionListener.Some? <==> physicsDelegate != InvalidRef
    }

    /** setCollisionListener as written: a listener is installed, with a new
        native delegate, only when none is; null removes an installed one;
        a second non-null listener is ignored and the first stays. */
    method SetCollisionListenerAsWritten(listener: Option<nat>, createdDelegate: int)
      requires createdDelegate != InvalidRef
      modifies this`collisionListener, this`physicsDelegate, this`calls
      ensures listener.Some? && old(physicsDelegate) == InvalidRef ==>
        collisionListener == listener && physicsDelegate == createdDelegate && calls == old(calls) + [SetDelegate]
      ensures listener.None? && old(physicsDelegate) != InvalidRef ==>
        collisionListener == None && physicsDelegate == InvalidRef &&
        calls == old(calls) + [ClearDelegate(old(physicsDelegate))]
      ensures (listener.Some? <==> old(physicsDelegate) != InvalidRef) ==>
        collisionListener == old(collisionListener) && physicsDelegate == old(physicsDelegate) && calls == old(calls)
      ensures old(ListenerMatchesDelegate()) ==> ListenerMatchesDelegate()
    {
      if listener.Some? && physicsDelegate == InvalidRef {
        collisionListener := listener;
        physicsDelegate := createdDelegate;
        calls := calls + [SetDelegate];
      } else if listener.None? && physicsDelegate != InvalidRef {
        calls := calls + [ClearDelegate(physicsDelegate)];
        physicsDelegate := InvalidRef;
        collisionListener := None;
      }
    }

    /** setCollisionListener replacing an installed listener: the native
        delegate is created or cleared as before, and a non-null listener
        always becomes the one called. */
    method SetCollisionListener(listener: Option<nat>, createdDelegate: int)
      requires createdDelegate != InvalidRef
      modifies this`collisionListener, this`physicsDelegate, this`calls
      ensures collisionListener == listener
      ensures listener.Some? && old(physicsDelegate) == InvalidRef ==>
        physicsDelegate == createdDelegate && calls == old(calls) + [SetDelegate]
      ensures listener.Some? && old(physicsDelegate) != InvalidRef ==>
        physicsDelegate == old(physicsDelegate) && calls == old(calls)
      ensures listener.None? ==> physicsDelegate == InvalidRef
      ensures listener.None? && old(physicsDelegate) != InvalidRef ==> calls == old(calls) + [ClearDelegate(old(physicsDelegate))]
      ensures listener.None? && old(physicsDelegate) == InvalidRef ==> calls == old(calls)
      ensures old(ListenerMatchesDelegate()) ==> ListenerMatchesDelegate()
    {
      if listener.Some? {
        if physicsDelegate == InvalidRef {
          physicsDelegate := createdDelegate;
          calls := calls + [SetDelegate];
        }
        collisionListener := listener;
      } else {
        if physicsDelegate != InvalidRef {
          calls := calls + [ClearDelegate(physicsDelegate)];
          physicsDelegate := InvalidRef;
        }
        collisionListener := None;
      }
    }

    /** onCollided: the installed listener is called, and only while a
        native delegate exists. */
    method OnCollided(tag: string, position: Vec3, normal: Vec3) returns (notified: Option<nat>)
      ensures notified == if physicsDelegate != InvalidRef then collisionListener else None
    {
      if collisionListener.Some? && physicsDelegate != InvalidRef {
        notified := collisionListener;
      } else {
        notified := None;
      }
    }
  }

  lemma {:induction false} OtherCallKeepsLastGravity(calls: seq<NativeCall>, c: NativeCall)
    requires !c.SetUseGravity?
    ensures LastUseGravity(calls + [c]) == LastUseGravity(calls)
  {
    assert (calls + [c])[..|calls|] == calls;
  }

  lemma {:induction false} OtherCallKeepsLastMass(calls: seq<NativeCall>, c: NativeCall)
    requires !c.Init? && !c.SetMass?
    ensures LastMass(calls + [c]) == LastMass(calls)
  {
    assert (calls + [c])[..|calls|] == calls;
  }

  /** A body built as written reports a mass of 0 to its getter while the
      native body holds the mass it was created with. */
  method MassLostAsWritten() returns (javaMass: real, nativeMass: Option<real>)
    ensures javaMass == 0.0 && nativeMass == Some(2.0)
  {
    var b := new PhysicsBody.CreateAsWritten(Dynamic, 2.0, None);
    javaMass, nativeMass := b.mass, LastMass(b.calls);
  }

  /** Turning gravity off as written leaves getUseGravity answering true,
      so code that toggles it by its own getter can never turn it back
      on. */
  method GravityIgnoredAsWritten() returns (javaGravity: bool, nativeGravity: Option<bool>)
    ensures javaGravity && nativeGravity == Some(false)
  {
    var b := new PhysicsBody(Dynamic, 1.0, None);
    b.SetUseGravityAsWritten(false);
    javaGravity, nativeGravity := b.useGravity, LastUseGravity(b.calls);
  }

  /** Replacing a collision listener as written keeps calling the first. */
  method ReplacedListenerIgnoredAsWritten() returns (notified: Option<nat>)
    ensures notified == Some(1)
  {
    var b := new PhysicsBody(Dynamic, 1.0, None);
    b.SetCollisionListenerAsWritten(Some(1), 7);
    b.SetCollisionListenerAsWritten(Some(2), 8);
    notified := b.OnCollided("wall", Vec3(0.0, 0.0, 0.0), Vec3(0.0, 1.0, 0.0));
  }

  /** With the corrected setter the replacement listener is the one called. */
  method ReplacedListenerCalled() returns (notified: Option<nat>)
    ensures notified == Some(2)
  {
    var b := new PhysicsBody(Dynamic, 1.0, None);
    b.SetCollisionListener(Some(1), 7);
    b.SetCollisionListener(Some(2), 8);
    notified := b.OnCollided("wall", Vec3(0.0, 0.0, 0.0), Vec3(0.0, 1.0, 0.0));
  }
}
