/** The distance joint (Dynamics/Joints/DistanceJoint.cs): keeps an anchor
    point on each of two bodies at a rest length from each other, either
    rigidly (a massless rod) or softly (a spring-damper, when the frequency is
    positive). One velocity impulse along the anchor-to-anchor direction `u`
    per iteration; a clamped position correction along the same direction when
    the joint is rigid. */
module DistanceJoints {
  import opened Geometry
  import opened SolverData
  import opened ContactConstraints
  import opened ContactVelocity
  import opened ContactPosition
  import Settings

  /** What a distance joint is built from. */
  datatype DistanceDef = DistanceDef(localAnchorA: Vec2, localAnchorB: Vec2, length: real,
                                     frequencyHz: real, dampingRatio: real)

  /** The joint's own state: the shared part (anchors, rest length, spring
      parameters, accumulated impulse) and the per-step solver temporaries. */
  datatype DistanceJoint = DistanceJoint(
    localAnchorA: Vec2, localAnchorB: Vec2, length: real,
    frequencyHz: real, dampingRatio: real,
    bias: real, gamma: real, impulse: real,
    indexA: nat, indexB: nat,
    u: Vec2, rA: Vec2, rB: Vec2,
    localCenterA: Vec2, localCenterB: Vec2,
    invMassA: real, invMassB: real, invIA: real, invIB: real,
    mass: real)

  /** The constructor: the definition's anchors, length and spring copied,
      no accumulated impulse, a rigid (zero) softness and bias. */
  function NewDistanceJoint(d: DistanceDef): (j: DistanceJoint)
    ensures j.localAnchorA == d.localAnchorA && j.localAnchorB == d.localAnchorB
    ensures j.length == d.length && j.frequencyHz == d.frequencyHz && j.dampingRatio == d.dampingRatio
    ensures j.impulse == 0.0 && j.gamma == 0.0 && j.bias == 0.0
  {
    DistanceJoint(d.localAnchorA, d.localAnchorB, d.length, d.frequencyHz, d.dampingRatio,
                  0.0, 0.0, 0.0, 0, 0, Zero(), Zero(), Zero(), Zero(), Zero(),
                  0.0, 0.0, 0.0, 0.0, 0.0)
  }

  /** `k != 0 ? 1 / k : 0`: the joint's guard admits any non-zero value. */
  function GuardedInverse(k: real): (m: real)
    ensures k != 0.0 ==> m * k == 1.0
    ensures k == 0.0 ==> m == 0.0
    ensures k > 0.0 ==> m > 0.0
  {
    if k != 0.0 then 1.0 / k else 0.0
  }

  /** `m` is the guarded inverse of `k`. */
  predicate InverseOf(m: real, k: real) {
    (k != 0.0 ==> m * k == 1.0) && (k == 0.0 ==> m == 0.0)
  }

  /** The inverse effective mass along the joint axis. */
  function AxisInvMass(j: DistanceJoint): real {
    InvMassAlong(j.invMassA, j.invMassB, j.invIA, j.invIB, j.rA, j.rB, j.u)
  }

  /** The joint's mass is the inverse of the axis inverse mass softened by `gamma`. */
  predicate MassMatches(j: DistanceJoint) {
    InverseOf(j.mass, AxisInvMass(j) + j.gamma)
  }

  /** The lever arm of an anchor: the anchor's offset from the centre of mass,
      rotated by the body's angle. */
  function Arm(kit: MathKit, pos: Position, localAnchor: Vec2, localCenter: Vec2): Vec2 {
    RotMul(RotOf(kit, pos.a), Sub(localAnchor, localCenter))
  }

  /** The vector from A's anchor to B's anchor. */
  function Span(pA: Position, rA: Vec2, pB: Position, rB: Vec2): Vec2 {
    Sub(Sub(Add(pB.c, rB), pA.c), rA)
  }

  /** The softness of a spring joint: `gamma`, `bias` and the softened mass. */
  datatype Softness = Softness(gamma: real, bias: real, mass: real)

  /** The spring's angular frequency `omega = 2 pi f`. */
  function Omega(frequencyHz: real): real { 2.0 * Settings.PI * frequencyHz }

  /** The spring stiffness `k = mass omega^2`. */
  function Stiffness(mass: real, frequencyHz: real): real {
    mass * Omega(frequencyHz) * Omega(frequencyHz)
  }

  /** The damping coefficient `d = 2 mass zeta omega`. */
  function Damping(mass: real, frequencyHz: real, dampingRatio: real): real {
    2.0 * mass * dampingRatio * Omega(frequencyHz)
  }

  /** `h (d + h k)`, the quantity whose guarded inverse is `gamma`. */
  function SpringTerm(mass: real, frequencyHz: real, dampingRatio: real, h: real): real {
    h * (Damping(mass, frequencyHz, dampingRatio) + h * Stiffness(mass, frequencyHz))
  }

  /** A spring joint's `gamma` inverts `h (d + h k)` for the rigid mass `mass`
      (0 when that is 0), and its bias is `c h k gamma` for the length error `c`. */
  predicate SpringSet(j: DistanceJoint, mass: real, c: real, h: real) {
    var t := SpringTerm(mass, j.frequencyHz, j.dampingRatio, h);
    (t != 0.0 ==> j.gamma * t == 1.0) && (t == 0.0 ==> j.gamma == 0.0)
    && j.bias == c * h * Stiffness(mass, j.frequencyHz) * j.gamma
  }

  /** The spring-damper terms for rigid mass `mass`, inverse mass `invMass`,
      position error `c` and time step `h`: `gamma` inverts `h (d + h k)` (and
      is 0 when that is 0), `bias = c h k gamma`, and the mass is re-inverted
      with `gamma` added. For a non-negative setup, `gamma` is non-negative and
      the bias has the sign of the error: it pulls a stretched joint in and
      pushes a squeezed one out. */
  function Soften(mass: real, invMass: real, frequencyHz: real, dampingRatio: real, c: real, h: real)
    : (s: Softness)
    ensures SpringTerm(mass, frequencyHz, dampingRatio, h) != 0.0 ==>
              s.gamma * SpringTerm(mass, frequencyHz, dampingRatio, h) == 1.0
    ensures SpringTerm(mass, frequencyHz, dampingRatio, h) == 0.0 ==> s.gamma == 0.0
    ensures s.bias == c * h * Stiffness(mass, frequencyHz) * s.gamma
    ensures InverseOf(s.mass, invMass + s.gamma)
    ensures mass >= 0.0 && frequencyHz >= 0.0 && dampingRatio >= 0.0 && h >= 0.0 ==>
              s.gamma >= 0.0 && (c >= 0.0 ==> s.bias >= 0.0) && (c <= 0.0 ==> s.bias <= 0.0)
  {
    var k := Stiffness(mass, frequencyHz);
    var gamma := GuardedInverse(SpringTerm(mass, frequencyHz, dampingRatio, h));
    var bias := c * h * k * gamma;
    if mass >= 0.0 && frequencyHz >= 0.0 && dampingRatio >= 0.0 && h >= 0.0 then
      SoftSigns(mass, dampingRatio, Omega(frequencyHz), c, h);
      Softness(gamma, bias, GuardedInverse(invMass + gamma))
    else
      Softness(gamma, bias, GuardedInverse(invMass + gamma))
  }

  lemma SoftSigns(mass: real, zeta: real, omega: real, c: real, h: real)
    requires mass >= 0.0 && zeta >= 0.0 && omega >= 0.0 && h >= 0.0
    ensures var d := 2.0 * mass * zeta * omega;
            var k := mass * omega * omega;
            var gamma := GuardedInverse(h * (d + h * k));
            gamma >= 0.0
            && (c >= 0.0 ==> c * h * k * gamma >= 0.0)
            && (c <= 0.0 ==> c * h * k * gamma <= 0.0)
  {
    var d := 2.0 * mass * zeta * omega;
    var k := mass * omega * omega;
    NonNegProduct3(2.0 * mass, zeta, omega);
    NonNegProduct3(mass, omega, omega);
    NonNegProduct(h, k);
    NonNegProduct(h, d + h * k);
    var gamma := GuardedInverse(h * (d + h * k));
    NonNegProduct3(h, k, gamma);
    if c >= 0.0 {
      NonNegProduct(c, h * k * gamma);
      assert c * h * k * gamma == c * (h * k * gamma);
    } else {
      NonNegProduct(-c, h * k * gamma);
      assert c * h * k * gamma == -((-c) * (h * k * gamma));
    }
  }

  lemma NonNegProduct(a: real, b: real)
    requires a >= 0.0 && b >= 0.0
    ensures a * b >= 0.0
  {
  }

  lemma NonNegProduct3(a: real, b: real, c: real)
    requires a >= 0.0 && b >= 0.0 && c >= 0.0
    ensures a * b * c >= 0.0
  {
    NonNegProduct(a, b);
    NonNegProduct(a * b, c);
  }

  /** The joint and the velocities after a velocity-phase operation. */
  datatype Stepped = Stepped(joint: DistanceJoint, velocities: seq<Velocity>)

  /** Bodies `a` and `b` are distinct bodies of the island. */
  predicate Joins(a: nat, b: nat, bodies: nat) {
    a < bodies && b < bodies && a != b
  }

  /** The joint axis: the span divided by its length when that length exceeds
      the slop, otherwise the zero vector. */
  function Axis(kit: MathKit, span: Vec2): (u: Vec2)
    ensures SoundSqrt(kit) ==> LengthSquared(u) == 1.0 || u == Zero()
    ensures Length(kit, span) <= Settings.linearSlop ==> u == Zero()
    ensures SoundSqrt(kit) && Length(kit, span) > Settings.linearSlop ==>
              LengthSquared(u) == 1.0 && Scale(Length(kit, span), u) == span
  {
    var length := Length(kit, span);
    if length > Settings.linearSlop then
      ScaleToUnitWhenSound(kit, span);
      Scale(1.0 / length, span)
    else Zero()
  }

  lemma ScaleToUnitWhenSound(kit: MathKit, span: Vec2)
    requires Length(kit, span) > 0.0
    ensures SoundSqrt(kit) ==>
              LengthSquared(Scale(1.0 / Length(kit, span), span)) == 1.0
              && Scale(Length(kit, span), Scale(1.0 / Length(kit, span), span)) == span
  {
    if SoundSqrt(kit) {
      LengthSquares(kit, span);
      ScaleToUnit(span, Length(kit, span));
    }
  }

  /** Dividing a vector by its (positive) length gives a unit vector that
      scales back to it. */
  lemma ScaleToUnit(v: Vec2, length: real)
    requires length > 0.0 && length * length == LengthSquared(v)
    ensures LengthSquared(Scale(1.0 / length, v)) == 1.0
    ensures Scale(length, Scale(1.0 / length, v)) == v
  {
    var k := 1.0 / length;
    assert k * length == 1.0;
    LengthSquaredOfScale(k, v);
    assert k * k * (length * length) == (k * length) * (k * length);
    ScaleScale(length, k, v);
  }

  /** The joint-data half of `initVelocityConstraints`: the bodies' data
      cached, the lever arms and axis from the positions, the (possibly
      softened) mass, and the impulse scaled for warm starting or cleared. */
  function PrepareJoint(kit: MathKit, j: DistanceJoint, bodyA: BodyData, bodyB: BodyData,
                        step: TimeStep, positions: seq<Position>): (r: DistanceJoint)
    requires Joins(bodyA.islandIndex, bodyB.islandIndex, |positions|)
    ensures r.indexA == bodyA.islandIndex && r.indexB == bodyB.islandIndex
    ensures r.invMassA == bodyA.invMass && r.invMassB == bodyB.invMass
    ensures r.invIA == bodyA.invI && r.invIB == bodyB.invI
    ensures r.localAnchorA == j.localAnchorA && r.localAnchorB == j.localAnchorB
    ensures r.length == j.length && r.frequencyHz == j.frequencyHz
    ensures r.dampingRatio == j.dampingRatio
    ensures r.localCenterA == bodyA.localCenter && r.localCenterB == bodyB.localCenter
    ensures r.rA == Arm(kit, positions[bodyA.islandIndex], j.localAnchorA, bodyA.localCenter)
    ensures r.rB == Arm(kit, positions[bodyB.islandIndex], j.localAnchorB, bodyB.localCenter)
    ensures r.u == Axis(kit, Span(positions[bodyA.islandIndex], r.rA, positions[bodyB.islandIndex], r.rB))
    ensures SoundSqrt(kit) ==> LengthSquared(r.u) == 1.0 || r.u == Zero()
    ensures MassMatches(r)
    ensures j.frequencyHz <= 0.0 ==> r.gamma == 0.0 && r.bias == 0.0
    ensures j.frequencyHz > 0.0 ==>
              SpringSet(r, GuardedInverse(AxisInvMass(r)),
                        Length(kit, Span(positions[bodyA.islandIndex], r.rA, positions[bodyB.islandIndex], r.rB))
                        - j.length, step.dt)
    ensures step.warmStarting ==> r.impulse == j.impulse * step.dtRatio
    ensures !step.warmStarting ==> r.impulse == 0.0
  {
    var ia, ib := bodyA.islandIndex, bodyB.islandIndex;
    var rA := Arm(kit, positions[ia], j.localAnchorA, bodyA.localCenter);
    var rB := Arm(kit, positions[ib], j.localAnchorB, bodyB.localCenter);
    var span := Span(positions[ia], rA, positions[ib], rB);
    var u := Axis(kit, span);
    var invMass := InvMassAlong(bodyA.invMass, bodyB.invMass, bodyA.invI, bodyB.invI, rA, rB, u);
    var rigid := GuardedInverse(invMass);
    var soft := if j.frequencyHz > 0.0
                then Soften(rigid, invMass, j.frequencyHz, j.dampingRatio, Length(kit, span) - j.length, step.dt)
                else Softness(0.0, 0.0, rigid);
    var impulse := if step.warmStarting then j.impulse * step.dtRatio else 0.0;
    var j' := j.(indexA := ia, indexB := ib, localCenterA := bodyA.localCenter, localCenterB := bodyB.localCenter,
                 invMassA := bodyA.invMass, invMassB := bodyB.invMass, invIA := bodyA.invI, invIB := bodyB.invI,
                 rA := rA, rB := rB, u := u, mass := soft.mass, gamma := soft.gamma, bias := soft.bias,
                 impulse := impulse);
    assert AxisInvMass(j') == invMass;
    j'
  }

  /** `initVelocityConstraints`: caches the bodies' data, computes the lever
      arms, the axis and the (possibly softened) mass, then either warm starts
      with the impulse scaled by the step ratio or clears the impulse. */
  function InitVelocityConstraints(kit: MathKit, j: DistanceJoint, bodyA: BodyData, bodyB: BodyData,
                                   step: TimeStep, positions: seq<Position>, velocities: seq<Velocity>)
    : (r: Stepped)
    requires Joins(bodyA.islandIndex, bodyB.islandIndex, |positions|)
    requires Joins(bodyA.islandIndex, bodyB.islandIndex, |velocities|)
    ensures r.joint.indexA == bodyA.islandIndex && r.joint.indexB == bodyB.islandIndex
    ensures r.joint.invMassA == bodyA.invMass && r.joint.invMassB == bodyB.invMass
    ensures r.joint.invIA == bodyA.invI && r.joint.invIB == bodyB.invI
    ensures r.joint.localAnchorA == j.localAnchorA && r.joint.localAnchorB == j.localAnchorB
    ensures r.joint.length == j.length && r.joint.frequencyHz == j.frequencyHz
    ensures r.joint.dampingRatio == j.dampingRatio
    ensures r.joint.localCenterA == bodyA.localCenter && r.joint.localCenterB == bodyB.localCenter
    ensures r.joint.rA == Arm(kit, positions[bodyA.islandIndex], j.localAnchorA, bodyA.localCenter)
    ensures r.joint.rB == Arm(kit, positions[bodyB.islandIndex], j.localAnchorB, bodyB.localCenter)
    ensures r.joint.u == Axis(kit, Span(positions[bodyA.islandIndex], r.joint.rA, positions[bodyB.islandIndex], r.joint.rB))
    ensures SoundSqrt(kit) ==> LengthSquared(r.joint.u) == 1.0 || r.joint.u == Zero()
    ensures MassMatches(r.joint)
    ensures j.frequencyHz <= 0.0 ==> r.joint.gamma == 0.0 && r.joint.bias == 0.0
    ensures j.frequencyHz > 0.0 ==>
              SpringSet(r.joint, GuardedInverse(AxisInvMass(r.joint)),
                        Length(kit, Span(positions[bodyA.islandIndex], r.joint.rA, positions[bodyB.islandIndex], r.joint.rB))
                        - j.length, step.dt)
    ensures step.warmStarting ==> r.joint.impulse == j.impulse * step.dtRatio
    ensures !step.warmStarting ==> r.joint.impulse == 0.0 && r.velocities == velocities
    ensures |r.velocities| == |velocities|
    ensures step.warmStarting ==>
              PairOf(r.velocities, bodyA.islandIndex, bodyB.islandIndex)
              == ApplyImpulse(PairOf(velocities, bodyA.islandIndex, bodyB.islandIndex),
                              bodyA.invMass, bodyA.invI, bodyB.invMass, bodyB.invI,
                              r.joint.rA, r.joint.rB, Scale(r.joint.impulse, r.joint.u))
    ensures forall k :: 0 <= k < |velocities| && k != bodyA.islandIndex && k != bodyB.islandIndex ==>
              r.velocities[k] == velocities[k]
    ensures WeightedMomentum(PairOf(r.velocities, bodyA.islandIndex, bodyB.islandIndex), bodyA.invMass, bodyB.invMass)
            == WeightedMomentum(PairOf(velocities, bodyA.islandIndex, bodyB.islandIndex), bodyA.invMass, bodyB.invMass)
  {
    var j' := PrepareJoint(kit, j, bodyA, bodyB, step, positions);
    if step.warmStarting then
      Stepped(j', PushPair(velocities, bodyA, bodyB, j'.rA, j'.rB, Scale(j'.impulse, j'.u)))
    else
      Stepped(j', velocities)
  }

  /** The velocities after the impulse `P` at lever arms `rA`, `rB` acts on
      the two bodies: only their entries change, by `ApplyImpulse`, and the
      weighted momentum is kept. */
  function PushPair(velocities: seq<Velocity>, bodyA: BodyData, bodyB: BodyData, rA: Vec2, rB: Vec2, P: Vec2)
    : (r: seq<Velocity>)
    requires Joins(bodyA.islandIndex, bodyB.islandIndex, |velocities|)
    ensures |r| == |velocities|
    ensures PairOf(r, bodyA.islandIndex, bodyB.islandIndex)
            == ApplyImpulse(PairOf(velocities, bodyA.islandIndex, bodyB.islandIndex),
                            bodyA.invMass, bodyA.invI, bodyB.invMass, bodyB.invI, rA, rB, P)
    ensures forall k :: 0 <= k < |velocities| && k != bodyA.islandIndex && k != bodyB.islandIndex ==>
              r[k] == velocities[k]
    ensures WeightedMomentum(PairOf(r, bodyA.islandIndex, bodyB.islandIndex), bodyA.invMass, bodyB.invMass)
            == WeightedMomentum(PairOf(velocities, bodyA.islandIndex, bodyB.islandIndex), bodyA.invMass, bodyB.invMass)
  {
    var ia, ib := bodyA.islandIndex, bodyB.islandIndex;
    var pair := PairOf(velocities, ia, ib);
    var pair' := ApplyImpulse(pair, bodyA.invMass, bodyA.invI, bodyB.invMass, bodyB.invI, rA, rB, P);
    ApplyImpulseConservesMomentum(pair, bodyA.invMass, bodyA.invI, bodyB.invMass, bodyB.invI, rA, rB, P);
    WriteBackReadsBack(velocities, ia, ib, pair');
    WriteBack(velocities, ia, ib, pair')
  }

  /** The rate of change of the joint length along the axis. */
  function AxisSpeed(j: DistanceJoint, p: BodyPair): real {
    Dot(j.u, RelativeVelocity(p, j.rA, j.rB))
  }

  /** The velocity residual of the soft constraint, `Cdot + bias + gamma impulse`,
      for the pair `p` and the accumulated impulse `impulse`. */
  function Residual(j: DistanceJoint, p: BodyPair, impulse: real): real {
    AxisSpeed(j, p) + j.bias + j.gamma * impulse
  }

  /** The impulse one velocity iteration applies: `-mass` times the residual. */
  function VelocityImpulse(j: DistanceJoint, p: BodyPair): real {
    -j.mass * Residual(j, p, j.impulse)
  }

  /** `solveVelocityConstraints`: one impulse along the axis, accumulated into
      the joint's impulse. Only the two bodies move, and the weighted linear
      momentum of the pair is kept. */
  function SolveVelocityConstraints(j: DistanceJoint, velocities: seq<Velocity>): (r: Stepped)
    requires Joins(j.indexA, j.indexB, |velocities|)
    ensures r.joint == j.(impulse := r.joint.impulse)
    ensures r.joint.impulse == j.impulse + VelocityImpulse(j, PairOf(velocities, j.indexA, j.indexB))
    ensures |r.velocities| == |velocities|
    ensures forall k :: 0 <= k < |velocities| && k != j.indexA && k != j.indexB ==>
              r.velocities[k] == velocities[k]
    ensures WeightedMomentum(PairOf(r.velocities, j.indexA, j.indexB), j.invMassA, j.invMassB)
            == WeightedMomentum(PairOf(velocities, j.indexA, j.indexB), j.invMassA, j.invMassB)
  {
    var pair := PairOf(velocities, j.indexA, j.indexB);
    var impulse := VelocityImpulse(j, pair);
    var pair' := ApplyImpulse(pair, j.invMassA, j.invIA, j.invMassB, j.invIB, j.rA, j.rB, Scale(impulse, j.u));
    ApplyImpulseConservesMomentum(pair, j.invMassA, j.invIA, j.invMassB, j.invIB, j.rA, j.rB, Scale(impulse, j.u));
    var vel' := WriteBack(velocities, j.indexA, j.indexB, pair');
    assert PairOf(vel', j.indexA, j.indexB) == pair';
    Stepped(j.(impulse := j.impulse + impulse), vel')
  }

  /** One velocity iteration solves the (soft) constraint exactly: with a unit
      axis and the mass that `initVelocityConstraints` computes, the residual
      `Cdot + bias + gamma impulse` of the new velocities and the new impulse
      is 0, unless the softened inverse mass is 0 (then nothing can move along
      the axis). For a rigid joint (`gamma == bias == 0`) this is `Cdot == 0`. */
  lemma VelocitySolveMeetsConstraint(j: DistanceJoint, velocities: seq<Velocity>)
    requires Joins(j.indexA, j.indexB, |velocities|)
    requires LengthSquared(j.u) == 1.0 && MassMatches(j) && AxisInvMass(j) + j.gamma != 0.0
    ensures Residual(j, PairOf(SolveVelocityConstraints(j, velocities).velocities, j.indexA, j.indexB),
                     SolveVelocityConstraints(j, velocities).joint.impulse) == 0.0
  {
    SolvedPair(j, velocities);
    PairResidual(j, PairOf(velocities, j.indexA, j.indexB));
  }

  /** The pair after the velocity solve is the pair pushed by the solve's impulse along the axis. */
  lemma SolvedPair(j: DistanceJoint, velocities: seq<Velocity>)
    requires Joins(j.indexA, j.indexB, |velocities|)
    ensures PairOf(SolveVelocityConstraints(j, velocities).velocities, j.indexA, j.indexB)
            == ApplyImpulse(PairOf(velocities, j.indexA, j.indexB), j.invMassA, j.invIA, j.invMassB, j.invIB, j.rA, j.rB,
                            Scale(VelocityImpulse(j, PairOf(velocities, j.indexA, j.indexB)), j.u))
  {
  }

  /** The solve's impulse applied to a pair zeroes the residual. */
  lemma PairResidual(j: DistanceJoint, p: BodyPair)
    requires LengthSquared(j.u) == 1.0 && MassMatches(j) && AxisInvMass(j) + j.gamma != 0.0
    ensures Residual(j, ApplyImpulse(p, j.invMassA, j.invIA, j.invMassB, j.invIB, j.rA, j.rB,
                                     Scale(VelocityImpulse(j, p), j.u)),
                     j.impulse + VelocityImpulse(j, p)) == 0.0
  {
    var a := VelocityImpulse(j, p);
    var x := Residual(j, p, j.impulse);
    var k := AxisInvMass(j);
    var p' := ApplyImpulse(p, j.invMassA, j.invIA, j.invMassB, j.invIB, j.rA, j.rB, Scale(a, j.u));
    ImpulseChangesApproach(p, j.invMassA, j.invIA, j.invMassB, j.invIB, j.rA, j.rB, a, j.u);
    assert AxisSpeed(j, p') == AxisSpeed(j, p) + a * k;
    assert j.mass * (k + j.gamma) == 1.0;
    calc {
      a * (k + j.gamma);
      (-j.mass * x) * (k + j.gamma);
      -x * (j.mass * (k + j.gamma));
      -x;
    }
    calc {
      Residual(j, p', j.impulse + a);
      AxisSpeed(j, p) + a * k + j.bias + j.gamma * (j.impulse + a);
      x + a * (k + j.gamma);
      0.0;
    }
  }

  /** The joint's reaction on body B: force and torque. */
  datatype Reaction = Reaction(force: Vec2, torque: real)

  /** `getReactionForce` / `getReactionTorque`: the accumulated impulse along
      the axis per unit time, and no torque. */
  function GetReaction(j: DistanceJoint, inv_dt: real): (r: Reaction)
    ensures r.force == Scale(j.impulse * inv_dt, j.u)
    ensures Cross(r.force, j.u) == 0.0
    ensures Dot(r.force, j.u) == j.impulse * inv_dt * LengthSquared(j.u)
    ensures r.torque == 0.0
  {
    var f := Vec2(j.impulse * j.u.x * inv_dt, j.impulse * j.u.y * inv_dt);
    assert f == Scale(j.impulse * inv_dt, j.u);
    Reaction(f, 0.0)
  }

  /** Over one step of length `dt` the reported force gives back the impulse
      `impulse u` that the joint applies along its axis (and that warm
      starting re-applies). */
  lemma ReactionRecoversImpulse(j: DistanceJoint, dt: real, inv_dt: real)
    requires inv_dt * dt == 1.0
    ensures Scale(dt, GetReaction(j, inv_dt).force) == Scale(j.impulse, j.u)
    ensures GetReaction(j, inv_dt).torque == 0.0
  {
    ScaleScale(dt, j.impulse * inv_dt, j.u);
    assert dt * (j.impulse * inv_dt) == j.impulse * (inv_dt * dt);
  }

  /** The positions after a position iteration, and whether the joint is
      within tolerance. */
  datatype Corrected = Corrected(positions: seq<Position>, ok: bool)

  /** The clamped length error `C`. */
  function LengthError(length: real, rest: real): (c: real)
    ensures -Settings.maxLinearCorrection <= c <= Settings.maxLinearCorrection
    ensures -Settings.maxLinearCorrection <= length - rest <= Settings.maxLinearCorrection ==> c == length - rest
  {
    Clamp(length - rest, -Settings.maxLinearCorrection, Settings.maxLinearCorrection)
  }

  /** The geometry of a rigid position iteration: the lever arms, the
      normalised span (axis and length) and the clamped length error. */
  datatype Rigid = Rigid(rA: Vec2, rB: Vec2, axis: Normalized, c: real)

  function RigidGeometry(kit: MathKit, j: DistanceJoint, positions: seq<Position>): (g: Rigid)
    requires Joins(j.indexA, j.indexB, |positions|)
    ensures g.c == LengthError(g.axis.length, j.length)
  {
    var pA, pB := positions[j.indexA], positions[j.indexB];
    var rA := Arm(kit, pA, j.localAnchorA, j.localCenterA);
    var rB := Arm(kit, pB, j.localAnchorB, j.localCenterB);
    var nz := Normalize(kit, Span(pA, rA, pB, rB));
    Rigid(rA, rB, nz, LengthError(nz.length, j.length))
  }

  /** The inverse effective mass along the normalised span. */
  function RigidInvMass(j: DistanceJoint, g: Rigid): real {
    InvMassAlong(j.invMassA, j.invMassB, j.invIA, j.invIB, g.rA, g.rB, g.axis.v)
  }

  /** `solvePositionConstraints`: a spring joint reports success and moves
      nothing; a rigid joint pushes the two bodies along the normalised span by
      `-mass C` for the clamped length error `C`, and reports success exactly
      when the unclamped error is within the slop. Only the two bodies move,
      and the mass-weighted centre sum is kept. */
  function SolvePositionConstraints(kit: MathKit, j: DistanceJoint, positions: seq<Position>): (r: Corrected)
    requires Joins(j.indexA, j.indexB, |positions|)
    ensures |r.positions| == |positions|
    ensures j.frequencyHz > 0.0 ==> r.ok && r.positions == positions
    ensures j.frequencyHz <= 0.0 ==>
              (r.ok <==> -Settings.linearSlop < RigidGeometry(kit, j, positions).axis.length - j.length
                                               < Settings.linearSlop)
    ensures j.frequencyHz <= 0.0 ==>
              PlacementOf(r.positions, j.indexA, j.indexB)
              == Push(PlacementOf(positions, j.indexA, j.indexB), Masses(j.invMassA, j.invIA, j.invMassB, j.invIB),
                      RigidGeometry(kit, j, positions).rA, RigidGeometry(kit, j, positions).rB,
                      RigidImpulse(j, RigidGeometry(kit, j, positions)))
    ensures forall k :: 0 <= k < |positions| && k != j.indexA && k != j.indexB ==> r.positions[k] == positions[k]
    ensures WeightedPlacement(PlacementOf(r.positions, j.indexA, j.indexB), Masses(j.invMassA, j.invIA, j.invMassB, j.invIB))
            == WeightedPlacement(PlacementOf(positions, j.indexA, j.indexB), Masses(j.invMassA, j.invIA, j.invMassB, j.invIB))
  {
    if j.frequencyHz > 0.0 then Corrected(positions, true)
    else
      var pl := PlacementOf(positions, j.indexA, j.indexB);
      var ms := Masses(j.invMassA, j.invIA, j.invMassB, j.invIB);
      var g := RigidGeometry(kit, j, positions);
      var pl' := Push(pl, ms, g.rA, g.rB, RigidImpulse(j, g));
      var positions' := PlaceBack(positions, j.indexA, j.indexB, pl');
      assert PlacementOf(positions', j.indexA, j.indexB) == pl';
      var r := Corrected(positions', Abs(g.c) < Settings.linearSlop);
      assert PlacementOf(r.positions, j.indexA, j.indexB) == pl';
      r
  }

  /** The rigid position impulse: `-mass C` along the normalised span. */
  function RigidImpulse(j: DistanceJoint, g: Rigid): Vec2 { Scale(-j.mass * g.c, g.axis.v) }

  /** The centres and angles of bodies `a` and `b`. */
  function PlacementOf(positions: seq<Position>, a: nat, b: nat): Placement
    requires a < |positions| && b < |positions|
  {
    Placement(positions[a].c, positions[a].a, positions[b].c, positions[b].a)
  }

  /** Write a placement back into bodies `a` and `b`. */
  function PlaceBack(positions: seq<Position>, a: nat, b: nat, pl: Placement): (r: seq<Position>)
    requires a < |positions| && b < |positions| && a != b
    ensures |r| == |positions|
    ensures r[a] == Position(pl.cA, pl.aA) && r[b] == Position(pl.cB, pl.aB)
    ensures forall k :: 0 <= k < |positions| && k != a && k != b ==> r[k] == positions[k]
  {
    positions[a := Position(pl.cA, pl.aA)][b := Position(pl.cB, pl.aB)]
  }

  /** The first-order change of the anchor distance along unit `n` when the
      bodies move from `pl` to `pl'`: `(dcB + daB x rB - dcA - daA x rA) . n`. */
  function GapChange(pl: Placement, pl': Placement, rA: Vec2, rB: Vec2, n: Vec2): real {
    Dot(Sub(pl'.cB, pl.cB), n) + (pl'.aB - pl.aB) * Cross(rB, n)
    - Dot(Sub(pl'.cA, pl.cA), n) - (pl'.aA - pl.aA) * Cross(rA, n)
  }

  /** To first order a rigid position iteration closes the clamped error: with
      a unit normalised span and the mass inverting the effective mass along it,
      the anchor distance changes by `-C`. */
  lemma LinearisedLengthCorrection(kit: MathKit, j: DistanceJoint, positions: seq<Position>)
    requires Joins(j.indexA, j.indexB, |positions|)
    requires j.frequencyHz <= 0.0
    requires LengthSquared(RigidGeometry(kit, j, positions).axis.v) == 1.0
    requires RigidInvMass(j, RigidGeometry(kit, j, positions)) != 0.0
    requires InverseOf(j.mass, RigidInvMass(j, RigidGeometry(kit, j, positions)))
    ensures GapChange(PlacementOf(positions, j.indexA, j.indexB),
                      PlacementOf(SolvePositionConstraints(kit, j, positions).positions, j.indexA, j.indexB),
                      RigidGeometry(kit, j, positions).rA, RigidGeometry(kit, j, positions).rB,
                      RigidGeometry(kit, j, positions).axis.v)
            == -RigidGeometry(kit, j, positions).c
  {
    RigidPushCloses(PlacementOf(positions, j.indexA, j.indexB), j, RigidGeometry(kit, j, positions));
  }

  /** The rigid push of `-mass C` along a unit axis, with the mass inverting
      the effective mass along it, changes the gap by `-C`. */
  lemma RigidPushCloses(pl: Placement, j: DistanceJoint, g: Rigid)
    requires LengthSquared(g.axis.v) == 1.0
    requires RigidInvMass(j, g) != 0.0 && InverseOf(j.mass, RigidInvMass(j, g))
    ensures GapChange(pl, Push(pl, Masses(j.invMassA, j.invIA, j.invMassB, j.invIB), g.rA, g.rB, RigidImpulse(j, g)),
                      g.rA, g.rB, g.axis.v) == -g.c
  {
    var imp := -j.mass * g.c;
    assert RigidImpulse(j, g) == Scale(imp, g.axis.v);
    RigidPushGap(pl, j, g, imp);
    UnitImpulse(j.mass, g.c, RigidInvMass(j, g));
  }

  /** A push of size `imp` along a unit axis changes the gap by `imp` times
      the inverse mass along the axis. */
  lemma RigidPushGap(pl: Placement, j: DistanceJoint, g: Rigid, imp: real)
    requires LengthSquared(g.axis.v) == 1.0
    ensures GapChange(pl, Push(pl, Masses(j.invMassA, j.invIA, j.invMassB, j.invIB), g.rA, g.rB, Scale(imp, g.axis.v)),
                      g.rA, g.rB, g.axis.v) == imp * RigidInvMass(j, g)
  {
    var ms := Masses(j.invMassA, j.invIA, j.invMassB, j.invIB);
    var n := g.axis.v;
    PushGap(pl, ms, g.rA, g.rB, imp, n);
    InvMassAlongTerms(j.invMassA, j.invMassB, j.invIA, j.invIB, g.rA, g.rB, n);
  }

  /** `(-m c) k == -c` when `m k == 1`. */
  lemma UnitImpulse(m: real, c: real, k: real)
    requires m * k == 1.0
    ensures (-m * c) * k == -c
  {
    calc {
      (-m * c) * k;
      -c * (m * k);
      -c;
    }
  }
}
