/** The joint base class (Dynamics/Joints/Joint.cs): the definition every joint
    is built from, the fields the base constructor fills in, `IsActive`, the
    `create` factory and `destroy`.

    Bodies and joints are referred to by handles (`nat`); a `null` reference is
    `None`. The world's joint registry is a map from handle to the distance
    links the constant-volume joint creates and destroys. */
module Joints {

  datatype Option<T> = None | Some(value: T)

  /** The joint tags (the engine's `JointType`; its file is not part of this
      model, the tags are JBox2D's). */
  datatype JointType =
    | UNKNOWN | REVOLUTE | PRISMATIC | DISTANCE | PULLEY | MOUSE
    | GEAR | WHEEL | WELD | FRICTION | ROPE | CONSTANT_VOLUME

  /** The fields of `JointDef` the base constructor reads. */
  datatype JointDef = JointDef(kind: JointType, bodyA: Option<nat>, bodyB: Option<nat>,
                               collideConnected: bool, userData: Option<nat>)

  /** `JointEdge`: the joint's entry in a body's joint list. */
  datatype JointEdge = JointEdge(joint: Option<nat>, other: Option<nat>, prev: Option<nat>, next: Option<nat>)

  /** The base fields of a joint. */
  datatype Joint = Joint(kind: JointType, prev: Option<nat>, next: Option<nat>,
                         edgeA: JointEdge, edgeB: JointEdge,
                         bodyA: Option<nat>, bodyB: Option<nat>,
                         index: nat, islandFlag: bool, collideConnected: bool, userData: Option<nat>)

  /** An edge with every link null. */
  function UnlinkedEdge(): (e: JointEdge)
    ensures e.joint.None? && e.other.None? && e.prev.None? && e.next.None?
  {
    JointEdge(None, None, None, None)
  }

  /** The base constructor. The two bodies must differ. The definition's tag,
      bodies, collide flag and user data are copied, and the joint starts
      outside the world's list and every island, with unlinked edges. */
  function NewJoint(def: JointDef): (j: Joint)
    requires def.bodyA != def.bodyB
    ensures j.kind == def.kind && j.bodyA == def.bodyA && j.bodyB == def.bodyB
    ensures j.collideConnected == def.collideConnected && j.userData == def.userData
    ensures j.prev.None? && j.next.None? && !j.islandFlag && j.index == 0
    ensures j.edgeA == UnlinkedEdge() && j.edgeB == UnlinkedEdge()
    ensures j.bodyA != j.bodyB
  {
    Joint(def.kind, None, None, UnlinkedEdge(), UnlinkedEdge(), def.bodyA, def.bodyB, 0, false,
          def.collideConnected, def.userData)
  }

  /** `IsActive`: both bodies are active. `active` is the bodies' flags. */
  function IsActive(j: Joint, active: nat -> bool): (r: bool)
    requires j.bodyA.Some? && j.bodyB.Some?
    ensures r <==> active(j.bodyA.value) && active(j.bodyB.value)
    ensures !active(j.bodyA.value) ==> !r
  {
    active(j.bodyA.value) && active(j.bodyB.value)
  }

  /** The concrete joint classes `create` can build. */
  datatype JointClass =
    | MouseJoint | DistanceJoint | PrismaticJoint | RevoluteJoint
    | WeldJoint | FrictionJoint | PulleyJoint | ConstantVolumeJoint

  /** The tag each class reports. */
  function ClassTag(c: JointClass): JointType {
    match c
    case MouseJoint => MOUSE
    case DistanceJoint => DISTANCE
    case PrismaticJoint => PRISMATIC
    case RevoluteJoint => REVOLUTE
    case WeldJoint => WELD
    case FrictionJoint => FRICTION
    case PulleyJoint => PULLEY
    case ConstantVolumeJoint => CONSTANT_VOLUME
  }

  /** The tags `create` handles; WHEEL and GEAR are commented out there. */
  predicate Handled(t: JointType) {
    t in {MOUSE, DISTANCE, PRISMATIC, REVOLUTE, WELD, FRICTION, PULLEY, CONSTANT_VOLUME}
  }

  /** The `create` factory: the class for the definition's tag, or null. */
  function Create(def: JointDef): (r: Option<JointClass>)
    ensures r.Some? <==> Handled(def.kind)
    ensures r.Some? ==> ClassTag(r.value) == def.kind
  {
    match def.kind
    case MOUSE => Some(MouseJoint)
    case DISTANCE => Some(DistanceJoint)
    case PRISMATIC => Some(PrismaticJoint)
    case REVOLUTE => Some(RevoluteJoint)
    case WELD => Some(WeldJoint)
    case FRICTION => Some(FrictionJoint)
    case PULLEY => Some(PulleyJoint)
    case CONSTANT_VOLUME => Some(ConstantVolumeJoint)
    case _ => None
  }

  /** The factory is the inverse of the class tag: every class is built from
      exactly its own tag. */
  lemma CreateInvertsTag(c: JointClass, def: JointDef)
    requires def.kind == ClassTag(c)
    ensures Create(def) == Some(c)
  {
  }

  /** WHEEL and GEAR definitions yield null. */
  lemma CreateRejectsWheelAndGear(def: JointDef)
    requires def.kind == WHEEL || def.kind == GEAR
    ensures Create(def).None?
  {
  }

  /** A distance link as the world stores it: the two bodies, the spring
      settings and the rest length. */
  datatype DistanceLink = DistanceLink(bodyA: nat, bodyB: nat, frequencyHz: real, dampingRatio: real, length: real)

  /** The world's joint registry: live joints by handle, and the next unused handle. */
  datatype World = World(links: map<nat, DistanceLink>, next: nat)

  /** Every live handle is below `next`, so `next` is unused. */
  predicate WorldValid(w: World) {
    forall h :: h in w.links ==> h < w.next
  }

  /** `World.createJoint` for a distance definition: a fresh handle. */
  function CreateJoint(w: World, link: DistanceLink): (r: (World, nat))
    requires WorldValid(w)
    ensures WorldValid(r.0)
    ensures r.1 !in w.links && r.0.links == w.links[r.1 := link]
    ensures r.1 < r.0.next && w.next <= r.1
  {
    (World(w.links[w.next := link], w.next + 1), w.next)
  }

  /** `World.destroyJoint`: the handle is no longer live. */
  function DestroyJoint(w: World, h: nat): (r: World)
    ensures r.links == w.links - {h} && r.next == w.next
    ensures WorldValid(w) ==> WorldValid(r)
  {
    World(w.links - {h}, w.next)
  }
}
