/** The friction joint (main/java/org/jbox2d/dynamics/joints/FrictionJoint.cs under Box2D.NET):
    top-down friction between two bodies. Each velocity iteration removes the
    relative angular velocity and the relative velocity of the anchors, with
    the accumulated angular impulse clamped to `h maxTorque` and the
    accumulated linear impulse to length `h maxForce`. It has no position
    correction. */
module FrictionJoints {
  import opened Geometry
  import opened SolverData
  import opened ContactConstraints
  import opened ContactVelocity
  import opened DistanceJoints

  /** What a friction joint is built from. */
  datatype FrictionDef = FrictionDef(localAnchorA: Vec2, localAnchorB: Vec2, maxForce: real, maxTorque: real)

  datatype FrictionJoint = FrictionJoint(
    localAnchorA: Vec2, localAnchorB: Vec2,
    linearImpulse: Vec2, angularImpulse: real,
    maxForce: real, maxTorque: real,
    indexA: nat, indexB: nat,
    rA: Vec2, rB: Vec2, localCenterA: Vec2, localCenterB: Vec2,
    invMassA: real, invMassB: real, invIA: real, invIB: real,
    linearMass: Mat22, angularMass: real)

  /** The constructor: anchors and limits copied, no accumulated impulse. */
  function NewFrictionJoint(d: FrictionDef): (j: FrictionJoint)
    ensures j.localAnchorA == d.localAnchorA && j.localAnchorB == d.localAnchorB
    ensures j.maxForce == d.maxForce && j.maxTorque == d.maxTorque
    ensures j.linearImpulse == Zero() && j.angularImpulse == 0.0
  {
    FrictionJoint(d.localAnchorA, d.localAnchorB, Zero(), 0.0, d.maxForce, d.maxTorque,
                  0, 0, Zero(), Zero(), Zero(), Zero(), 0.0, 0.0, 0.0, 0.0, MatZero(), 0.0)
  }

  /** Both limits are non-negative, as the setters demand. */
  predicate Limited(j: FrictionJoint) {
    j.maxForce >= 0.0 && j.maxTorque >= 0.0
  }

  /** The `MaxForce` setter; it asserts a non-negative value. */
  function SetMaxForce(j: FrictionJoint, force: real): (r: FrictionJoint)
    requires force >= 0.0
    ensures r.maxForce == force && r == j.(maxForce := r.maxForce)
    ensures Limited(j) ==> Limited(r)
  {
    j.(maxForce := force)
  }

  /** The `MaxTorque` setter; it asserts a non-negative value. */
  function SetMaxTorque(j: FrictionJoint, torque: real): (r: FrictionJoint)
    requires torque >= 0.0
    ensures r.maxTorque == torque && r == j.(maxTorque := r.maxTorque)
    ensures Limited(j) ==> Limited(r)
  {
    j.(maxTorque := torque)
  }

  /** `getReactionForce` / `getReactionTorque`: the accumulated impulses over
      the step. The force is the linear impulse per unit time and the torque
      the angular impulse per unit time; so the force is parallel to the
      linear impulse and the torque has the angular impulse's sign for a
      positive inverse step. */
  function GetReaction(j: FrictionJoint, inv_dt: real): (r: Reaction)
    ensures r.force == Scale(inv_dt, j.linearImpulse) && r.torque == inv_dt * j.angularImpulse
    ensures Cross(r.force, j.linearImpulse) == 0.0
    ensures Dot(r.force, j.linearImpulse) == inv_dt * LengthSquared(j.linearImpulse)
    ensures inv_dt > 0.0 ==> (r.torque > 0.0 <==> j.angularImpulse > 0.0)
  {
    var f := Scale(inv_dt, j.linearImpulse);
    assert inv_dt > 0.0 && j.angularImpulse > 0.0 ==> inv_dt * j.angularImpulse > 0.0;
    assert inv_dt > 0.0 && j.angularImpulse <= 0.0 ==> inv_dt * j.angularImpulse <= 0.0;
    Reaction(f, inv_dt * j.angularImpulse)
  }

  /** `solvePositionConstraints`: nothing to correct, always satisfied. */
  function SolvePositionConstraints(positions: seq<Position>): (r: Corrected)
    ensures r.ok && r.positions == positions
  {
    Corrected(positions, true)
  }

  /** The point mass matrix `K` of the two anchors: the linear relative
      velocity changes by `K P` under an impulse `P` (see `ImpulseMovesAnchors`). */
  function PointMassMatrix(mA: real, mB: real, iA: real, iB: real, rA: Vec2, rB: Vec2): (k: Mat22)
    ensures k.ey.x == k.ex.y
  {
    var exy := -iA * rA.x * rA.y - iB * rB.x * rB.y;
    Mat22(Vec2(mA + mB + iA * rA.y * rA.y + iB * rB.y * rB.y, exy),
          Vec2(exy, mA + mB + iA * rA.x * rA.x + iB * rB.x * rB.x))
  }

  /** `iA + iB`, inverted only when positive (and otherwise left as it is). */
  function AngularMass(iA: real, iB: real): (m: real)
    ensures iA + iB > 0.0 ==> m * (iA + iB) == 1.0
    ensures iA + iB <= 0.0 ==> m == iA + iB
  {
    var k := iA + iB;
    if k > 0.0 then 1.0 / k else k
  }

  /** The joint and velocities after a velocity-phase operation. */
  datatype Advanced = Advanced(joint: FrictionJoint, velocities: seq<Velocity>)

  /** `initVelocityConstraints`: caches the bodies' data, computes the lever
      arms, the inverse point mass matrix and the angular mass, then warm
      starts with both impulses scaled by the step ratio, or clears them. */
  function InitVelocityConstraints(kit: MathKit, j: FrictionJoint, bodyA: BodyData, bodyB: BodyData,
                                   step: TimeStep, positions: seq<Position>, velocities: seq<Velocity>)
    : (r: Advanced)
    requires Joins(bodyA.islandIndex, bodyB.islandIndex, |positions|)
    requires Joins(bodyA.islandIndex, bodyB.islandIndex, |velocities|)
    ensures r.joint.indexA == bodyA.islandIndex && r.joint.indexB == bodyB.islandIndex
    ensures r.joint.invMassA == bodyA.invMass && r.joint.invMassB == bodyB.invMass
    ensures r.joint.invIA == bodyA.invI && r.joint.invIB == bodyB.invI
    ensures r.joint.maxForce == j.maxForce && r.joint.maxTorque == j.maxTorque
    ensures r.joint.localCenterA == bodyA.localCenter && r.joint.localCenterB == bodyB.localCenter
    ensures r.joint.rA == Arm(kit, positions[bodyA.islandIndex], j.localAnchorA, bodyA.localCenter)
    ensures r.joint.rB == Arm(kit, positions[bodyB.islandIndex], j.localAnchorB, bodyB.localCenter)
    ensures var k := PointMassMatrix(bodyA.invMass, bodyB.invMass, bodyA.invI, bodyB.invI, r.joint.rA, r.joint.rB);
            (Det(k) != 0.0 ==> IsIdentity(MatProduct(k, r.joint.linearMass)))
            && (Det(k) == 0.0 ==> r.joint.linearMass == MatZero())
    ensures bodyA.invI + bodyB.invI > 0.0 ==> r.joint.angularMass * (bodyA.invI + bodyB.invI) == 1.0
    ensures bodyA.invI + bodyB.invI <= 0.0 ==> r.joint.angularMass == bodyA.invI + bodyB.invI
    ensures step.warmStarting ==>
              r.joint.linearImpulse == Scale(step.dtRatio, j.linearImpulse)
              && r.joint.angularImpulse == j.angularImpulse * step.dtRatio
    ensures !step.warmStarting ==>
              r.joint.linearImpulse == Zero() && r.joint.angularImpulse == 0.0 && r.velocities == velocities
    ensures |r.velocities| == |velocities|
    ensures step.warmStarting ==>
              PairOf(r.velocities, bodyA.islandIndex, bodyB.islandIndex)
              == WarmPush(PairOf(velocities, bodyA.islandIndex, bodyB.islandIndex),
                          bodyA.invMass, bodyA.invI, bodyB.invMass, bodyB.invI,
                          r.joint.rA, r.joint.rB, r.joint.linearImpulse, r.joint.angularImpulse)
    ensures forall k :: 0 <= k < |velocities| && k != bodyA.islandIndex && k != bodyB.islandIndex ==>
              r.velocities[k] == velocities[k]
    ensures WeightedMomentum(PairOf(r.velocities, bodyA.islandIndex, bodyB.islandIndex), bodyA.invMass, bodyB.invMass)
            == WeightedMomentum(PairOf(velocities, bodyA.islandIndex, bodyB.islandIndex), bodyA.invMass, bodyB.invMass)
  {
    var ia, ib := bodyA.islandIndex, bodyB.islandIndex;
    var rA := Arm(kit, positions[ia], j.localAnchorA, bodyA.localCenter);
    var rB := Arm(kit, positions[ib], j.localAnchorB, bodyB.localCenter);
    var k := PointMassMatrix(bodyA.invMass, bodyB.invMass, bodyA.invI, bodyB.invI, rA, rB);
    var j' := j.(indexA := ia, indexB := ib, localCenterA := bodyA.localCenter, localCenterB := bodyB.localCenter,
                 invMassA := bodyA.invMass, invMassB := bodyB.invMass, invIA := bodyA.invI, invIB := bodyB.invI,
                 rA := rA, rB := rB, linearMass := Invert(k), angularMass := AngularMass(bodyA.invI, bodyB.invI));
    if step.warmStarting then
      var li := Scale(step.dtRatio, j.linearImpulse);
      var ai := j.angularImpulse * step.dtRatio;
      var pair := PairOf(velocities, ia, ib);
      var pair' := WarmPush(pair, bodyA.invMass, bodyA.invI, bodyB.invMass, bodyB.invI, rA, rB, li, ai);
      var vel' := WriteBack(velocities, ia, ib, pair');
      assert PairOf(vel', ia, ib) == pair';
      Advanced(j'.(linearImpulse := li, angularImpulse := ai), vel')
    else
      Advanced(j'.(linearImpulse := Zero(), angularImpulse := 0.0), velocities)
  }

  /** The warm-start push: the linear impulse at the anchors plus the angular
      impulse, applied to both bodies with opposite signs. */
  function WarmPush(p: BodyPair, mA: real, iA: real, mB: real, iB: real, rA: Vec2, rB: Vec2,
                    li: Vec2, ai: real): (r: BodyPair)
    ensures var q := ApplyImpulse(p, mA, iA, mB, iB, rA, rB, li);
            r == q.(wA := q.wA - iA * ai, wB := q.wB + iB * ai)
    ensures WeightedMomentum(r, mA, mB) == WeightedMomentum(p, mA, mB)
    ensures li == Zero() && ai == 0.0 ==> r == p
  {
    var q := ApplyImpulse(p, mA, iA, mB, iB, rA, rB, li);
    ApplyImpulseConservesMomentum(p, mA, iA, mB, iB, rA, rB, li);
    BodyPair(q.vA, p.wA - iA * (Cross(rA, li) + ai), q.vB, p.wB + iB * (Cross(rB, li) + ai))
  }

  /** A non-negative cap `maxImpulse` holds the accumulated angular impulse
      within `[-maxImpulse, maxImpulse]`. */
  predicate TorqueCapped(j: FrictionJoint, maxImpulse: real) {
    maxImpulse >= 0.0 ==> -maxImpulse <= j.angularImpulse <= maxImpulse
  }

  /** The velocities of the pair and the joint after one block of the solve. */
  datatype Block = Block(joint: FrictionJoint, pair: BodyPair)

  /** The angular block: remove the relative spin, keeping the accumulated
      angular impulse within `maxImpulse` (`h maxTorque`). The linear
      velocities are untouched; a body whose inverse inertia is 0 keeps its spin. */
  function AngularBlock(j: FrictionJoint, p: BodyPair, maxImpulse: real, iA: real, iB: real): (r: Block)
    ensures r.joint == j.(angularImpulse := r.joint.angularImpulse)
    ensures TorqueCapped(r.joint, maxImpulse)
    ensures -maxImpulse <= j.angularImpulse - j.angularMass * (p.wB - p.wA) <= maxImpulse ==>
              r.joint.angularImpulse == j.angularImpulse - j.angularMass * (p.wB - p.wA)
    ensures r.pair.vA == p.vA && r.pair.vB == p.vB
    ensures iA == 0.0 ==> r.pair.wA == p.wA
    ensures iB == 0.0 ==> r.pair.wB == p.wB
    ensures iB * (r.pair.wA - p.wA) + iA * (r.pair.wB - p.wB) == 0.0
  {
    var impulse := -j.angularMass * (p.wB - p.wA);
    var total := Clamp(j.angularImpulse + impulse, -maxImpulse, maxImpulse);
    var d := total - j.angularImpulse;
    assert iB * (-(iA * d)) + iA * (iB * d) == 0.0;
    Block(j.(angularImpulse := total), p.(wA := p.wA - iA * d, wB := p.wB + iB * d))
  }

  /** The accumulated linear impulse capped to length `maxImpulse`: rescaled
      to that length only when its squared length exceeds `maxImpulse^2`. */
  function CapImpulse(kit: MathKit, li: Vec2, maxImpulse: real): (r: Vec2)
    ensures LengthSquared(li) <= maxImpulse * maxImpulse ==> r == li
    ensures SoundSqrt(kit) ==> LengthSquared(r) <= maxImpulse * maxImpulse
  {
    if LengthSquared(li) > maxImpulse * maxImpulse then
      CapWithinBound(kit, li, maxImpulse);
      Scale(maxImpulse, Normalize(kit, li).v)
    else li
  }

  lemma CapWithinBound(kit: MathKit, li: Vec2, maxImpulse: real)
    ensures SoundSqrt(kit) ==> LengthSquared(Scale(maxImpulse, Normalize(kit, li).v)) <= maxImpulse * maxImpulse
  {
    if SoundSqrt(kit) {
      var n := Normalize(kit, li).v;
      NormalizeAtMostUnit(kit, li);
      LengthSquaredOfScale(maxImpulse, n);
      assert maxImpulse * maxImpulse >= 0.0;
      assert maxImpulse * maxImpulse * LengthSquared(n) <= maxImpulse * maxImpulse * 1.0;
    }
  }

  /** The linear block: remove the anchors' relative velocity with the
      inverse point mass matrix, then cap the accumulated impulse to
      `maxImpulse` (`h maxForce`) and apply the change. */
  function LinearBlock(kit: MathKit, j: FrictionJoint, p: BodyPair, maxImpulse: real, iA: real, iB: real)
    : (r: Block)
    ensures r.joint == j.(linearImpulse := r.joint.linearImpulse)
    ensures SoundSqrt(kit) ==> LengthSquared(r.joint.linearImpulse) <= maxImpulse * maxImpulse
    ensures WeightedMomentum(r.pair, j.invMassA, j.invMassB) == WeightedMomentum(p, j.invMassA, j.invMassB)
    ensures j.invMassA == 0.0 && iA == 0.0 ==> r.pair.vA == p.vA && r.pair.wA == p.wA
    ensures j.invMassB == 0.0 && iB == 0.0 ==> r.pair.vB == p.vB && r.pair.wB == p.wB
  {
    var cdot := RelativeVelocity(p, j.rA, j.rB);
    var impulse := Neg(MatMul(j.linearMass, cdot));
    var total := CapImpulse(kit, Add(j.linearImpulse, impulse), maxImpulse);
    var d := Sub(total, j.linearImpulse);
    ApplyImpulseConservesMomentum(p, j.invMassA, iA, j.invMassB, iB, j.rA, j.rB, d);
    Block(j.(linearImpulse := total), ApplyImpulse(p, j.invMassA, iA, j.invMassB, iB, j.rA, j.rB, d))
  }

  /** The angular block with the cap `maxTorqueImpulse`, then the linear
      block with the cap `maxForceImpulse`, on the updated velocities. Only the
      two impulses of the joint change, both stay within their caps, the
      weighted linear momentum is kept, and a body with no inverse mass and
      inertia keeps its velocity. */
  function Blocks(kit: MathKit, j: FrictionJoint, p: BodyPair, maxTorqueImpulse: real, maxForceImpulse: real,
                  iA: real, iB: real): (r: Block)
    ensures r.joint == j.(angularImpulse := r.joint.angularImpulse, linearImpulse := r.joint.linearImpulse)
    ensures TorqueCapped(r.joint, maxTorqueImpulse)
    ensures SoundSqrt(kit) ==> LengthSquared(r.joint.linearImpulse) <= maxForceImpulse * maxForceImpulse
    ensures WeightedMomentum(r.pair, j.invMassA, j.invMassB) == WeightedMomentum(p, j.invMassA, j.invMassB)
    ensures j.invMassA == 0.0 && iA == 0.0 ==> r.pair.vA == p.vA && r.pair.wA == p.wA
    ensures j.invMassB == 0.0 && iB == 0.0 ==> r.pair.vB == p.vB && r.pair.wB == p.wB
  {
    var a := AngularBlock(j, p, maxTorqueImpulse, iA, iB);
    LinearBlock(kit, a.joint, a.pair, maxForceImpulse, iA, iB)
  }

  /** The angular cap survives the linear block. */
  lemma BlocksCapped(kit: MathKit, j: FrictionJoint, p: BodyPair, maxTorqueImpulse: real, maxForceImpulse: real,
                     iA: real, iB: real)
    ensures TorqueCapped(Blocks(kit, j, p, maxTorqueImpulse, maxForceImpulse, iA, iB).joint, maxTorqueImpulse)
  {
  }

  /** One velocity iteration with inverse inertias `iA`, `iB`: the two blocks
      on the pair, written back. */
  function SolveWith(kit: MathKit, j: FrictionJoint, step: TimeStep, velocities: seq<Velocity>, iA: real, iB: real)
    : (r: Advanced)
    requires Joins(j.indexA, j.indexB, |velocities|)
    ensures r.joint == j.(angularImpulse := r.joint.angularImpulse, linearImpulse := r.joint.linearImpulse)
    ensures TorqueCapped(r.joint, step.dt * j.maxTorque)
    ensures SoundSqrt(kit) ==>
              LengthSquared(r.joint.linearImpulse) <= (step.dt * j.maxForce) * (step.dt * j.maxForce)
    ensures |r.velocities| == |velocities|
    ensures forall k :: 0 <= k < |velocities| && k != j.indexA && k != j.indexB ==> r.velocities[k] == velocities[k]
    ensures WeightedMomentum(PairOf(r.velocities, j.indexA, j.indexB), j.invMassA, j.invMassB)
            == WeightedMomentum(PairOf(velocities, j.indexA, j.indexB), j.invMassA, j.invMassB)
    ensures j.invMassA == 0.0 && iA == 0.0 ==> r.velocities[j.indexA] == velocities[j.indexA]
    ensures j.invMassB == 0.0 && iB == 0.0 ==> r.velocities[j.indexB] == velocities[j.indexB]
    ensures PairOf(r.velocities, j.indexA, j.indexB)
            == Blocks(kit, j, PairOf(velocities, j.indexA, j.indexB), step.dt * j.maxTorque, step.dt * j.maxForce,
                      iA, iB).pair
  {
    var b := Blocks(kit, j, PairOf(velocities, j.indexA, j.indexB), step.dt * j.maxTorque, step.dt * j.maxForce, iA, iB);
    BlocksCapped(kit, j, PairOf(velocities, j.indexA, j.indexB), step.dt * j.maxTorque, step.dt * j.maxForce, iA, iB);
    WriteBackReadsBack(velocities, j.indexA, j.indexB, b.pair);
    Advanced(b.joint, WriteBack(velocities, j.indexA, j.indexB, b.pair))
  }

  lemma SolveWithCapped(kit: MathKit, j: FrictionJoint, step: TimeStep, velocities: seq<Velocity>, iA: real, iB: real)
    requires Joins(j.indexA, j.indexB, |velocities|)
    ensures TorqueCapped(SolveWith(kit, j, step, velocities, iA, iB).joint, step.dt * j.maxTorque)
  {
  }

  /** `solveVelocityConstraints` as written: both bodies' inverse inertia is
      read from body B. A body A that cannot rotate is spun all the same
      (see `StaticBodySpins`). */
  function SolveVelocityConstraints(kit: MathKit, j: FrictionJoint, step: TimeStep, velocities: seq<Velocity>)
    : (r: Advanced)
    requires Joins(j.indexA, j.indexB, |velocities|)
    ensures |r.velocities| == |velocities|
    ensures TorqueCapped(r.joint, step.dt * j.maxTorque)
    ensures SoundSqrt(kit) ==>
              LengthSquared(r.joint.linearImpulse) <= (step.dt * j.maxForce) * (step.dt * j.maxForce)
    ensures forall k :: 0 <= k < |velocities| && k != j.indexA && k != j.indexB ==> r.velocities[k] == velocities[k]
    ensures WeightedMomentum(PairOf(r.velocities, j.indexA, j.indexB), j.invMassA, j.invMassB)
            == WeightedMomentum(PairOf(velocities, j.indexA, j.indexB), j.invMassA, j.invMassB)
    ensures Limited(j) && Reciprocal(step) ==> ReactionWithin(kit, j, step.inv_dt, r.joint)
  {
    SolveWithCapped(kit, j, step, velocities, j.invIB, j.invIB);
    var r := SolveWith(kit, j, step, velocities, j.invIB, j.invIB);
    ReactionCapped(kit, j, step, r.joint);
    r
  }

  /** `solveVelocityConstraints` as evidently intended: each body with its
      own inverse inertia. A body with no inverse mass and no inverse inertia
      (a static body) keeps its velocity. */
  function SolveVelocityConstraintsIntended(kit: MathKit, j: FrictionJoint, step: TimeStep,
                                            velocities: seq<Velocity>): (r: Advanced)
    requires Joins(j.indexA, j.indexB, |velocities|)
    ensures |r.velocities| == |velocities|
    ensures TorqueCapped(r.joint, step.dt * j.maxTorque)
    ensures SoundSqrt(kit) ==>
              LengthSquared(r.joint.linearImpulse) <= (step.dt * j.maxForce) * (step.dt * j.maxForce)
    ensures forall k :: 0 <= k < |velocities| && k != j.indexA && k != j.indexB ==> r.velocities[k] == velocities[k]
    ensures WeightedMomentum(PairOf(r.velocities, j.indexA, j.indexB), j.invMassA, j.invMassB)
            == WeightedMomentum(PairOf(velocities, j.indexA, j.indexB), j.invMassA, j.invMassB)
    ensures j.invMassA == 0.0 && j.invIA == 0.0 ==> r.velocities[j.indexA] == velocities[j.indexA]
    ensures j.invMassB == 0.0 && j.invIB == 0.0 ==> r.velocities[j.indexB] == velocities[j.indexB]
    ensures Limited(j) && Reciprocal(step) ==> ReactionWithin(kit, j, step.inv_dt, r.joint)
  {
    SolveWithCapped(kit, j, step, velocities, j.invIA, j.invIB);
    var r := SolveWith(kit, j, step, velocities, j.invIA, j.invIB);
    ReactionCapped(kit, j, step, r.joint);
    r
  }

  /** The step's inverse time step is the positive reciprocal of its time step. */
  predicate Reciprocal(step: TimeStep) {
    step.inv_dt > 0.0 && step.inv_dt * step.dt == 1.0
  }

  /** The reaction `s` reports at `inv_dt` is within `j`'s limits: the torque
      within `maxTorque` and, for a true square root, the force's length
      within `maxForce`. */
  ghost predicate ReactionWithin(kit: MathKit, j: FrictionJoint, inv_dt: real, s: FrictionJoint) {
    -j.maxTorque <= GetReaction(s, inv_dt).torque <= j.maxTorque
    && (SoundSqrt(kit) ==> LengthSquared(GetReaction(s, inv_dt).force) <= j.maxForce * j.maxForce)
  }

  /** The caps a solve keeps on the impulses of `s` put its reaction within
      `j`'s limits at the step's rate. */
  lemma ReactionCapped(kit: MathKit, j: FrictionJoint, step: TimeStep, s: FrictionJoint)
    requires TorqueCapped(s, step.dt * j.maxTorque)
    requires SoundSqrt(kit) ==> LengthSquared(s.linearImpulse) <= (step.dt * j.maxForce) * (step.dt * j.maxForce)
    ensures Limited(j) && Reciprocal(step) ==> ReactionWithin(kit, j, step.inv_dt, s)
  {
    if Limited(j) && Reciprocal(step) {
      CappedReaction(kit, s, step.dt, step.inv_dt, j.maxTorque, j.maxForce);
    }
  }

  /** The rate form of the caps: impulses capped at `dt` times a limit give a
      reaction at `1 / dt` capped at the limit. */
  lemma {:induction false} CappedReaction(kit: MathKit, j: FrictionJoint, dt: real, inv_dt: real, maxT: real, maxF: real)
    requires maxT >= 0.0 && maxF >= 0.0 && inv_dt > 0.0 && inv_dt * dt == 1.0
    requires TorqueCapped(j, dt * maxT)
    requires SoundSqrt(kit) ==> LengthSquared(j.linearImpulse) <= (dt * maxF) * (dt * maxF)
    ensures -maxT <= GetReaction(j, inv_dt).torque <= maxT
    ensures SoundSqrt(kit) ==> LengthSquared(GetReaction(j, inv_dt).force) <= maxF * maxF
  {
    assert dt > 0.0;
    assert dt * maxT >= 0.0;
    var a := j.angularImpulse;
    assert inv_dt * a <= inv_dt * (dt * maxT);
    assert inv_dt * (-(dt * maxT)) <= inv_dt * a;
    assert inv_dt * (dt * maxT) == (inv_dt * dt) * maxT;
    if SoundSqrt(kit) {
      var l := LengthSquared(j.linearImpulse);
      LengthSquaredOfScale(inv_dt, j.linearImpulse);
      var q := inv_dt * inv_dt;
      assert q > 0.0;
      assert q * l <= q * ((dt * maxF) * (dt * maxF));
      assert q * ((dt * maxF) * (dt * maxF)) == ((inv_dt * dt) * maxF) * ((inv_dt * dt) * maxF);
    }
  }

  /** The joint of the counterexample: a static body A (index 0, no inverse
      mass, no inverse inertia) and a dynamic body B (index 1), lever arms
      zero, identity linear mass, unit angular mass, caps of 10. */
  function SpinJoint(): FrictionJoint {
    FrictionJoint(Zero(), Zero(), Zero(), 0.0, 10.0, 10.0, 0, 1, Zero(), Zero(), Zero(), Zero(),
                  0.0, 1.0, 0.0, 1.0, Mat22(Vec2(1.0, 0.0), Vec2(0.0, 1.0)), 1.0)
  }

  /** A at rest, B spinning at 1. */
  function SpinVelocities(): seq<Velocity> { [Velocity(Zero(), 0.0), Velocity(Zero(), 1.0)] }

  /** With the static body A and a spinning body B, the solve as written
      gives A the spin `1`, the intended one leaves it at rest. */
  lemma StaticBodySpins(kit: MathKit)
    ensures SolveVelocityConstraints(kit, SpinJoint(), TimeStep(1.0, 1.0, 1.0, false), SpinVelocities())
              .velocities[0] == Velocity(Zero(), 1.0)
    ensures SolveVelocityConstraintsIntended(kit, SpinJoint(), TimeStep(1.0, 1.0, 1.0, false), SpinVelocities())
              .velocities[0] == SpinVelocities()[0]
  {
    var j := SpinJoint();
    var vel := SpinVelocities();
    var step := TimeStep(1.0, 1.0, 1.0, false);
    SpinsAsWritten(kit, j, step, vel);
  }

  lemma SpinsAsWritten(kit: MathKit, j: FrictionJoint, step: TimeStep, vel: seq<Velocity>)
    requires j == SpinJoint() && vel == SpinVelocities() && step == TimeStep(1.0, 1.0, 1.0, false)
    ensures SolveWith(kit, j, step, vel, 1.0, 1.0).velocities[0] == Velocity(Zero(), 1.0)
  {
    var pair := PairOf(vel, 0, 1);
    assert pair == BodyPair(Zero(), 0.0, Zero(), 1.0);
    SpinBlocks(kit, j, pair);
    SameCaps(kit, j, pair, step.dt * j.maxTorque, step.dt * j.maxForce, 10.0, 10.0);
  }

  /** Equal caps give equal blocks. */
  lemma SameCaps(kit: MathKit, j: FrictionJoint, p: BodyPair, t: real, f: real, t': real, f': real)
    requires t == t' && f == f'
    ensures Blocks(kit, j, p, t, f, 1.0, 1.0) == Blocks(kit, j, p, t', f', 1.0, 1.0)
  {
  }

  /** The two blocks of the counterexample with both inverse inertias 1: the
      spin moves from B to A and nothing else changes. */
  lemma SpinBlocks(kit: MathKit, j: FrictionJoint, pair: BodyPair)
    requires j == SpinJoint() && pair == BodyPair(Zero(), 0.0, Zero(), 1.0)
    ensures Blocks(kit, j, pair, 10.0, 10.0, 1.0, 1.0).pair == BodyPair(Zero(), 1.0, Zero(), 0.0)
  {
    var a := AngularBlock(j, pair, 10.0, 1.0, 1.0);
    SpinTransfers(j, pair);
    RestingAnchors(kit, a.joint, a.pair);
  }

  /** The angular block with both inverse inertias 1 swaps the spins. */
  lemma SpinTransfers(j: FrictionJoint, pair: BodyPair)
    requires j.angularImpulse == 0.0 && j.angularMass == 1.0
    requires pair == BodyPair(Zero(), 0.0, Zero(), 1.0)
    ensures AngularBlock(j, pair, 10.0, 1.0, 1.0).pair == BodyPair(Zero(), 1.0, Zero(), 0.0)
  {
    assert -j.angularMass * (pair.wB - pair.wA) == -1.0;
    assert Clamp(j.angularImpulse + -1.0, -10.0, 10.0) == -1.0;
  }

  /** When the anchors do not move relative to each other and no linear
      impulse is stored, the linear block changes nothing. */
  lemma RestingAnchors(kit: MathKit, j: FrictionJoint, p: BodyPair)
    requires j.linearImpulse == Zero() && j.rA == Zero() && j.rB == Zero()
    requires p.vA == Zero() && p.vB == Zero()
    ensures LinearBlock(kit, j, p, 10.0, 1.0, 1.0).pair == p
  {
    var arg := Add(j.linearImpulse, Neg(MatMul(j.linearMass, RelativeVelocity(p, j.rA, j.rB))));
    NoImpulseWhenResting(j, p);
    SmallImpulseKept(kit);
    assert CapImpulse(kit, arg, 10.0) == Zero();
    ZeroImpulseKeepsPair(p, j.invMassA, j.invMassB);
  }

  lemma NoImpulseWhenResting(j: FrictionJoint, p: BodyPair)
    requires j.linearImpulse == Zero() && j.rA == Zero() && j.rB == Zero()
    requires p.vA == Zero() && p.vB == Zero()
    ensures Add(j.linearImpulse, Neg(MatMul(j.linearMass, RelativeVelocity(p, j.rA, j.rB)))) == Zero()
  {
    RestingRelative(p);
    MatMulZero(j.linearMass);
  }

  lemma RestingRelative(p: BodyPair)
    requires p.vA == Zero() && p.vB == Zero()
    ensures RelativeVelocity(p, Zero(), Zero()) == Zero()
  {
    assert p.wA * 0.0 == 0.0 && p.wB * 0.0 == 0.0;
  }

  lemma SmallImpulseKept(kit: MathKit)
    ensures CapImpulse(kit, Zero(), 10.0) == Zero()
  {
    assert LengthSquared(Zero()) <= 10.0 * 10.0;
  }

  lemma ZeroImpulseKeepsPair(p: BodyPair, mA: real, mB: real)
    ensures ApplyImpulse(p, mA, 1.0, mB, 1.0, Zero(), Zero(), Zero()) == p
  {
  }

  /** Under an impulse `P` at the anchors the anchors' relative velocity
      changes by `K P`, for the point mass matrix `K`. */
  lemma ImpulseMovesAnchors(p: BodyPair, mA: real, iA: real, mB: real, iB: real, rA: Vec2, rB: Vec2, P: Vec2)
    ensures RelativeVelocity(ApplyImpulse(p, mA, iA, mB, iB, rA, rB, P), rA, rB)
            == Add(RelativeVelocity(p, rA, rB), MatMul(PointMassMatrix(mA, mB, iA, iB, rA, rB), P))
  {
    var q := ApplyImpulse(p, mA, iA, mB, iB, rA, rB, P);
    var xA := CrossSV(iA * Cross(rA, P), rA);
    var xB := CrossSV(iB * Cross(rB, P), rB);
    SpinAdds(p.wB, iB * Cross(rB, P), rB);
    SpinSubtracts(p.wA, iA * Cross(rA, P), rA);
    assert CrossSV(q.wB, rB) == Add(CrossSV(p.wB, rB), xB);
    assert CrossSV(q.wA, rA) == Sub(CrossSV(p.wA, rA), xA);
    Regroup(p.vA, p.vB, Scale(mA, P), Scale(mB, P), CrossSV(p.wA, rA), CrossSV(p.wB, rB), xA, xB);
    PointMassSplits(mA, mB, iA, iB, rA, rB);
    MatMulAdds(MassMatrix(mA + mB), MatAdd(ArmMatrix(iA, rA), ArmMatrix(iB, rB)), P);
    MatMulAdds(ArmMatrix(iA, rA), ArmMatrix(iB, rB), P);
    MassMoves(mA, mB, P);
    ArmMoves(iA, rA, P);
    ArmMoves(iB, rB, P);
  }

  function MatAdd(a: Mat22, b: Mat22): Mat22 { Mat22(Add(a.ex, b.ex), Add(a.ey, b.ey)) }

  /** The point mass matrix of a body's linear inverse mass alone. */
  function MassMatrix(m: real): Mat22 { Mat22(Vec2(m, 0.0), Vec2(0.0, m)) }

  /** The part one lever arm `r` with inverse inertia `i` adds to the point mass matrix. */
  function ArmMatrix(i: real, r: Vec2): Mat22 {
    Mat22(Vec2(i * r.y * r.y, -i * r.x * r.y), Vec2(-i * r.x * r.y, i * r.x * r.x))
  }

  /** `K` is the sum of the linear part and one part per lever arm. */
  lemma PointMassSplits(mA: real, mB: real, iA: real, iB: real, rA: Vec2, rB: Vec2)
    ensures PointMassMatrix(mA, mB, iA, iB, rA, rB)
            == MatAdd(MassMatrix(mA + mB), MatAdd(ArmMatrix(iA, rA), ArmMatrix(iB, rB)))
  {
  }

  lemma MatMulAdds(a: Mat22, b: Mat22, v: Vec2)
    ensures MatMul(MatAdd(a, b), v) == Add(MatMul(a, v), MatMul(b, v))
  {
  }

  lemma MassMoves(mA: real, mB: real, P: Vec2)
    ensures MatMul(MassMatrix(mA + mB), P) == Add(Scale(mA, P), Scale(mB, P))
  {
  }

  /** The spin an impulse gives through lever arm `r`, seen at the anchor. */
  lemma ArmMoves(i: real, r: Vec2, P: Vec2)
    ensures CrossSV(i * Cross(r, P), r) == MatMul(ArmMatrix(i, r), P)
  {
    var c := r.x * P.y - r.y * P.x;
    assert -(i * c) * r.y == i * r.y * r.y * P.x + (-i * r.x * r.y) * P.y;
    assert (i * c) * r.x == (-i * r.x * r.y) * P.x + i * r.x * r.x * P.y;
  }

  lemma SpinAdds(w: real, d: real, r: Vec2)
    ensures CrossSV(w + d, r) == Add(CrossSV(w, r), CrossSV(d, r))
  {
  }

  lemma SpinSubtracts(w: real, d: real, r: Vec2)
    ensures CrossSV(w - d, r) == Sub(CrossSV(w, r), CrossSV(d, r))
  {
  }

  /** The bookkeeping of the relative velocity after both bodies move. */
  lemma Regroup(vA: Vec2, vB: Vec2, a: Vec2, b: Vec2, sA: Vec2, sB: Vec2, xA: Vec2, xB: Vec2)
    ensures Sub(Sub(Add(Add(vB, b), Add(sB, xB)), Sub(vA, a)), Sub(sA, xA))
            == Add(Sub(Sub(Add(vB, sB), vA), sA), Add(Add(a, b), Add(xA, xB)))
  {
  }

  lemma MatMulZero(m: Mat22)
    ensures MatMul(m, Zero()) == Zero()
  {
    assert m.ex.x * 0.0 == 0.0 && m.ey.x * 0.0 == 0.0 && m.ex.y * 0.0 == 0.0 && m.ey.y * 0.0 == 0.0;
  }

  /** `(K L) v == K (L v)`. */
  lemma MatMulAssociates(k: Mat22, l: Mat22, v: Vec2)
    ensures MatMul(MatProduct(k, l), v) == MatMul(k, MatMul(l, v))
  {
  }

  /** The intended linear block removes the anchors' relative velocity
      exactly when the cap is not reached and the stored linear mass inverts
      the point mass matrix of the inertias in use. */
  lemma LinearBlockStopsSliding(kit: MathKit, j: FrictionJoint, p: BodyPair, maxImpulse: real, iA: real, iB: real)
    requires IsIdentity(MatProduct(PointMassMatrix(j.invMassA, j.invMassB, iA, iB, j.rA, j.rB), j.linearMass))
    requires LengthSquared(Add(j.linearImpulse, Neg(MatMul(j.linearMass, RelativeVelocity(p, j.rA, j.rB)))))
             <= maxImpulse * maxImpulse
    ensures RelativeVelocity(LinearBlock(kit, j, p, maxImpulse, iA, iB).pair, j.rA, j.rB) == Zero()
  {
    var k := PointMassMatrix(j.invMassA, j.invMassB, iA, iB, j.rA, j.rB);
    var cdot := RelativeVelocity(p, j.rA, j.rB);
    var impulse := Neg(MatMul(j.linearMass, cdot));
    var d := Sub(Add(j.linearImpulse, impulse), j.linearImpulse);
    assert d == impulse;
    ImpulseMovesAnchors(p, j.invMassA, iA, j.invMassB, iB, j.rA, j.rB, d);
    MatMulAssociates(k, j.linearMass, cdot);
    assert MatMul(MatProduct(k, j.linearMass), cdot) == cdot;
    assert MatMul(k, Neg(MatMul(j.linearMass, cdot))) == Neg(MatMul(k, MatMul(j.linearMass, cdot)));
  }
}
