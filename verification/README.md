# Box2D.NET solver core in Dafny

This project models the discrete core of Box2D.NET, a C# port of the JBox2D
two-dimensional rigid-body engine, and proves properties of it. The model covers
the logic the engine wraps around its floating-point arithmetic: guards, clamps,
case selection, wiring and copying. Scalars are Dafny `real`s. The square root,
sine and cosine are uninterpreted fields of a `Geometry.MathKit`. A property that
needs a true square root says so through `Geometry.SoundSqrt`.

The parts modelled:

- **Contact solver** (`ContactConstraints`, `ContactVelocity`, `ContactSolve`,
  `ContactBlock`, `ContactPosition`).
  - `init` grows the constraint arrays and seeds the impulses for warm starting; `storeImpulses` writes them back.
  - `warmStart` and `initializeVelocityConstraints` compute the effective masses with their guards, the restitution bias, and the condition-number fallback to one point.
  - The sequential-impulse velocity pass clamps friction to the Coulomb cone and keeps normal impulses non-negative.
  - The two-point block solver tries its four complementarity patterns in order.
  - The clamped position passes, plain and time-of-impact, report whether the worst separation is within tolerance.
- **Contact data**:
  - `ContactIds`: contact-id byte packing, comparison, flip and copy.
  - `Manifolds`: manifold points.
  - `WorldManifolds`: world-space contact points, with the circles, face-A and face-B cases.
- **Joints**:
  - `Joints`: the joint base class, the `create` factory and the world's joint registry.
  - `DistanceJoints`: the distance joint, rigid or spring.
  - `FrictionJoints`: the friction joint.
  - `ConstantVolumeJoints`: the constant-volume joint. Its area is a shoelace sum over the ring. It has a cyclic chain of distance links, cascading destruction, `inflate` and the capped edge correction.
  - `ConstantVolumeJointDefs`: the builder for the constant-volume joint's definition.
- **Shapes and pools**:
  - `EdgeShapes`: the edge shape's bounding box, mass, ray cast and clone.
  - `FloatArrays`: the length-keyed float-array cache.

Operations are pure functions over immutable datatypes. A method that mutates a
field or an array in the engine returns the new value here. Island velocity and
position arrays are sequences indexed by island index (`SolverData`). Bodies and
joints are handles (`nat`), and a null reference is `None`. A `Debug.Assert` or
Java `assert` becomes a `requires`. Four places where the code does something
other than it evidently intends are modelled as written. Each also has a
corrected variant beside it (see "## Findings").

## Model

| member | source | states |
|---|---|---|
| ContactIds.Widen | Box2D.NET/Collision/ContactID.cs:71 | the `(int)` cast of a non-negative `sbyte` stays below 0x80, so it cannot spill into a higher lane |
| ContactIds.ByteOf | Box2D.NET/Collision/ContactID.cs:71 | reading one byte lane of the 32-bit key gives a value in 0..255 |
| ContactIds.Int32Of | Box2D.NET/Collision/ContactID.cs:66-73 | the key's bit pattern read as a C# `int` lies in the signed 32-bit range |
| ContactIds.Wrap32 | Box2D.NET/Collision/ContactID.cs:116-119 | the subtraction in `CompareTo` wraps into the 32-bit range and is exact when no overflow occurs |
| ContactIds.KeyLanes | Box2D.NET/Collision/ContactID.cs:66-73 | with every field in 0..127, byte 3 of the key is `indexA`, byte 2 `indexB`, byte 1 `typeA`, byte 0 `typeB` |
| ContactIds.KeyValueDigits | Box2D.NET/Collision/ContactID.cs:66-73 | with every field in 0..127 the key is the base-256 number indexA·2²⁴ + indexB·2¹⁶ + typeA·2⁸ + typeB, a non-negative `int` |
| ContactIds.KeyInjective | Box2D.NET/Collision/ContactID.cs:66-78 | with every field in 0..127, `isEqual` holds exactly when all four fields are equal |
| ContactIds.NegativeByteCollides | Box2D.NET/Collision/ContactID.cs:66-78 | a negative `typeB` sign-extends over every lane: ids (1,2,3,-1) and (4,5,6,-1) are `isEqual` |
| ContactIds.CompareToOrdersKeys | Box2D.NET/Collision/ContactID.cs:116-119 | with every field in 0..127, `Key - o.Key` does not overflow, is negative exactly when the key is smaller, and is zero exactly for identical ids |
| ContactIds.KeyValueInjective | Box2D.NET/Collision/ContactID.cs:66-73 | ids with every field in 0..127 and the same key value are the same id |
| ContactIds.Flip | Box2D.NET/Collision/ContactID.cs:97-105 | `flip` swaps `indexA` with `indexB` and `typeA` with `typeB` |
| ContactIds.FlipInvolution | Box2D.NET/Collision/ContactID.cs:97-105 | flipping twice restores the id |
| ContactIds.ZeroId | Box2D.NET/Collision/ContactID.cs:108-114 | after `zero` the key is 0 |
| ContactIds.SetFrom | Box2D.NET/Collision/ContactID.cs:84-95 | the copy takes `indexA`, `typeA`, `typeB` from the source and `indexB` from the source's `indexA`; it equals the source when the two indices agree, and (for fields in 0..127) is `isEqual` to it exactly then |
| ContactIds.SetFromIdempotent | Box2D.NET/Collision/ContactID.cs:89-95 | copying a copy gives the same copy, and non-negative fields stay non-negative |
| ContactIds.SetFromLosesIndexB | Box2D.NET/Collision/ContactID.cs:92 | the copy of (1,2,0,0) is (1,1,0,0), which is not `isEqual` to its source |
| ContactIds.SetFromIntended | Box2D.NET/Collision/ContactID.cs:89-95 | the intended copy takes all four fields and is always `isEqual` to its source |
| Manifolds.DefaultPoint | Box2D.NET/Collision/ManifoldPoint.cs:79-84 | a blank point has zero impulses, a zero local point and an id whose key is 0 |
| Manifolds.CopyPoint | Box2D.NET/Collision/ManifoldPoint.cs:88-94 | the copy has the same local point and impulses and an id copied through `ContactID`'s copy constructor (its `indexB` is the source's `indexA`); for ids with fields in 0..127 the copy equals its source exactly when the id's two indices agree |
| Manifolds.SetPoint | Box2D.NET/Collision/ManifoldPoint.cs:99-105 | `set_Renamed` overwrites local point and both impulses and copies the id with `ContactID.set_Renamed` |
| Manifolds.SetPointIsCopy | Box2D.NET/Collision/ManifoldPoint.cs:88-105 | overwriting any target with `set_Renamed` gives exactly what the copy constructor gives |
| Manifolds.CopyPointIdempotent | Box2D.NET/Collision/ManifoldPoint.cs:88-94 | a copy of a copy is the copy |
| Manifolds.CopyPointIntended | Box2D.NET/Collision/ManifoldPoint.cs:88-94 | with the id copied field for field, the copy equals its source |
| WorldManifolds.NewWorldManifold | Box2D.NET/Collision/WorldManifold.cs:42-50 | a new world manifold has a zero normal and `maxManifoldPoints` zero points |
| WorldManifolds.CirclesNormal | Box2D.NET/Collision/WorldManifold.cs:85-103 | the circles normal stays (1, 0) while the transformed centres are within `EPSILON` |
| WorldManifolds.FacePoint | Box2D.NET/Collision/WorldManifold.cs:140-149 | a face point is the clip point moved along the normal by half of `(radiusRef - dot(clip - plane, n)) - radiusInc` |
| WorldManifolds.UpdatePrefix | Box2D.NET/Collision/WorldManifold.cs:125-150 | the loop writes exactly the entries below `pointCount` and keeps the others |
| WorldManifolds.Initialize | Box2D.NET/Collision/WorldManifold.cs:55-207 | no points: nothing changes; CIRCLES writes only point 0, the midpoint of the two surface points along the centre-to-centre normal (kept (1, 0) for near centres); FACE_A's normal is `rotA·localNormal` and each point is the midpoint between B's clip point pushed back onto A's face and its surface point; FACE_B is the same with the roles swapped and the normal negated; points at or above `pointCount` are untouched |
| WorldManifolds.FacePointMidway | Box2D.NET/Collision/WorldManifold.cs:140-149 | with a unit normal, the face point's height above the plane is the reference radius plus half the separation |
| WorldManifolds.FaceAPointsMidway | Box2D.NET/Collision/WorldManifold.cs:116-150 | FACE_A with unit rotation and normal: the normal is a unit vector and every written point lies half-way between the two surfaces, measured from A's face |
| WorldManifolds.FaceBPointsMidway | Box2D.NET/Collision/WorldManifold.cs:154-205 | FACE_B: the same measured from B's face against the negated normal, which points from A to B |
| WorldManifolds.CirclesPointMidway | Box2D.NET/Collision/WorldManifold.cs:95-112 | for centres more than `EPSILON` apart (and a true square root), the normal is the unit direction from A to B and the point lies `(distance + radiusA - radiusB)/2` from A's centre along it |
| WorldManifolds.CirclesPointOnLine | Box2D.NET/Collision/WorldManifold.cs:105-112 | the circles point is `pA + ((d + rA - rB)/2)·n` once `pB - pA = d·n` |
| ContactConstraints.NewVelocityConstraint | Box2D.NET/Dynamics/Contacts/ContactSolver.cs:66 | a fresh velocity constraint has room for `maxManifoldPoints` points |
| ContactConstraints.NewPositionConstraint | Box2D.NET/Dynamics/Contacts/ContactSolver.cs:65 | a fresh position constraint has room for `maxManifoldPoints` local points |
| ContactConstraints.NewSolver | Box2D.NET/Dynamics/Contacts/ContactSolver.cs:59-68 | the constructor allocates `INITIAL_NUM_CONSTRAINTS` (256) fresh records in each array |
| ContactConstraints.Grow | Box2D.NET/Dynamics/Contacts/ContactSolver.cs:82-102 | an array at least `count` long is kept; a shorter one is replaced by one of length `max(2·old, count)` that starts with the old entries and continues with blank records; arrays never shrink |
| ContactConstraints.GrowIdempotent | Box2D.NET/Dynamics/Contacts/ContactSolver.cs:82-102 | a second `init` with the same count does not grow the arrays again |
| ContactConstraints.SeedPoint | Box2D.NET/Dynamics/Contacts/ContactSolver.cs:163-180 | with warm starting the point's impulses are `dtRatio ×` the manifold's, otherwise 0; `rA`, `rB`, both masses and the bias are zeroed |
| ContactConstraints.InitVelocity | Box2D.NET/Dynamics/Contacts/ContactSolver.cs:126-180 | friction, restitution, tangent speed, island indices, inverse masses and inertias are copied from the contact and its bodies, `contactIndex` is the slot and `pointCount` the manifold's, `K` and `normalMass` are zero; the first `pointCount` points are seeded from the manifold; the other points and the normal keep their previous values |
| ContactConstraints.InitPosition | Box2D.NET/Dynamics/Contacts/ContactSolver.cs:141-182 | island indices, inverse masses, local centres and inertias come from the bodies, the local normal, local point, type and point count from the manifold, and the radii from the shapes; the first `pointCount` local points are copied from the manifold; the others are kept |
| ContactConstraints.Init | Box2D.NET/Dynamics/Contacts/ContactSolver.cs:75-185 | `init` takes step, count, contacts and arrays from the definition, grows both arrays by the growth rule, and for each contact `i < count` fills velocity constraint `i` and position constraint `i` with that contact's copied data (as for InitVelocity and InitPosition); records at or beyond `count` are kept |
| ContactConstraints.InitSeedsPoint | Box2D.NET/Dynamics/Contacts/ContactSolver.cs:158-183 | every active point of every contact is seeded (warm-start scaled or zero impulses, zeroed scratch state) and its position constraint receives the manifold's local point |
| ContactConstraints.StoreOne | Box2D.NET/Dynamics/Contacts/ContactSolver.cs:822-835 | one constraint's write-back changes only the contact it names |
| ContactConstraints.StoreImpulses | Box2D.NET/Dynamics/Contacts/ContactSolver.cs:822-835 | `storeImpulses` changes nothing but the cached impulses of manifold points, and only in contacts some constraint names |
| ContactConstraints.StoreImpulsesWrites | Box2D.NET/Dynamics/Contacts/ContactSolver.cs:822-835 | with constraint `i` owning contact `i`, exactly the first `pointCount` accumulated impulses are written back and the other manifold points are left alone |
| ContactConstraints.StoreThenInitRoundTrip | Box2D.NET/Dynamics/Contacts/ContactSolver.cs:163-169 | storing the impulses and then running `init` with warm starting and `dtRatio` 1 re-seeds every used point with the impulses it had accumulated |
| SolverData.ApplyImpulse | Box2D.NET/Dynamics/Contacts/ContactSolver.cs:219-226 | an impulse pushes A back and B forward so that `mB·ΔvA + mA·ΔvB = 0`; a zero impulse changes nothing |
| SolverData.ApplyImpulseConservesMomentum | Box2D.NET/Dynamics/Contacts/ContactSolver.cs:219-226 | every impulse keeps the pair's weighted linear momentum `mB·vA + mA·vB` |
| SolverData.WriteBack | Box2D.NET/Dynamics/Contacts/ContactSolver.cs:207-231 | writing the pair back changes the two constraint bodies and no other |
| SolverData.WriteBackReadsBack | Box2D.NET/Dynamics/Contacts/ContactSolver.cs:207-231 | reading the two bodies back after the write gives the written pair |
| ContactVelocity.Tangent | Box2D.NET/Dynamics/Contacts/ContactSolver.cs:213 | the friction direction `cross(normal, 1)` is perpendicular to the normal and as long as it |
| ContactVelocity.WarmStartPoints | Box2D.NET/Dynamics/Contacts/ContactSolver.cs:215-229 | re-applying the seeded impulses point by point ends where applying their sum at once ends: each linear velocity moves by its inverse mass times the summed impulse, each angular velocity by its inverse inertia times the summed moments; the pair's weighted momentum is kept, and points without impulses change nothing |
| ContactVelocity.AllAtOnceStep | Box2D.NET/Dynamics/Contacts/ContactSolver.cs:219-228 | applying one more point's seeded impulse to the sum of the earlier ones gives the sum including that point |
| ContactVelocity.WarmStartContact | Box2D.NET/Dynamics/Contacts/ContactSolver.cs:196-231 | the constraint's two bodies end with the summed seeded impulses applied at once; one constraint's warm start changes only its two bodies, and nothing at all when it carries no impulse |
| ContactVelocity.WarmStart | Box2D.NET/Dynamics/Contacts/ContactSolver.cs:191-236 | `warmStart` keeps every velocity when no constraint carries an impulse |
| ContactVelocity.ColdInitWarmStartIdle | Box2D.NET/Dynamics/Contacts/ContactSolver.cs:170-174 | after an `init` without warm starting, `warmStart` leaves all velocities unchanged |
| ContactVelocity.DotRelativeVelocity | Box2D.NET/Dynamics/Contacts/ContactSolver.cs:315-318 | the approach speed `vRel` is `n·vB + wB·(rB×n) − n·vA − wA·(rA×n)` |
| ContactVelocity.ImpulseChangesApproach | Box2D.NET/Dynamics/Contacts/ContactSolver.cs:297-302 | an impulse `j·n` changes the approach speed along a unit `n` by `j` times `kNormal`, which is why `normalMass = 1/kNormal` |
| ContactVelocity.InvMassAlong | Box2D.NET/Dynamics/Contacts/ContactSolver.cs:297-300 | with non-negative inverse masses and inertias, `kNormal` (and `kTangent`) is at least `mA + mB` |
| ContactVelocity.EffectiveMass | Box2D.NET/Dynamics/Contacts/ContactSolver.cs:302 | the mass is the reciprocal of `k` when `k > 0` and 0 otherwise; it is positive exactly when `k` is |
| ContactVelocity.RestitutionBias | Box2D.NET/Dynamics/Contacts/ContactSolver.cs:313-322 | the bias is `−restitution·vRel` when `vRel < −velocityThreshold` and 0 otherwise; non-negative for non-negative restitution |
| ContactVelocity.WellConditionedInvertible | Box2D.NET/Dynamics/Contacts/ContactSolver.cs:339-344 | a matrix passing `k11² < 100·(k11·k22 − k12²)` has a positive determinant, so its stored inverse really inverts it |
| ContactVelocity.PrepareBlock | Box2D.NET/Dynamics/Contacts/ContactSolver.cs:325-352 | a well-conditioned two-point constraint stores `K` and its inverse; an ill-conditioned one drops to one point; others are untouched |
| ContactVelocity.PreparePoints | Box2D.NET/Dynamics/Contacts/ContactSolver.cs:289-323 | every active point's lever arms run from the two centres of mass to its world point, and it gets guarded normal and tangent masses and the restitution bias for those arms, keeping its impulses; inactive points are kept |
| ContactVelocity.PrepareContact | Box2D.NET/Dynamics/Contacts/ContactSolver.cs:249-352 | the reused world manifold becomes the contact's manifold placed by the bodies' transforms; the constraint's normal is its normal and each active point's lever arms run from the centres of mass to its world point; the per-point and block contract holds against that normal |
| ContactVelocity.InitializeVelocityConstraints | Box2D.NET/Dynamics/Contacts/ContactSolver.cs:243-354 | every constraint below `count` is prepared, with its normal and lever arms taken from the world manifold as it finds the reused object after the earlier constraints; the others are kept; the reused object ends as the last constraint left it |
| ContactVelocity.ContactWorldFresh | Box2D.NET/Dynamics/Contacts/ContactSolver.cs:276-287 | what the reused world manifold held before does not affect a constraint's normal or the points its manifold rewrites (all of them for face manifolds, point 0 for circles) |
| ContactVelocity.PreparedBlockConsistent | Box2D.NET/Dynamics/Contacts/ContactSolver.cs:326-345 | a prepared two-point constraint that kept both points has `normalMass·K = I`, and each point's own normal mass inverts its diagonal entry |
| ContactSolve.TangentStep | Box2D.NET/Dynamics/Contacts/ContactSolver.cs:398-437 | the new accumulated tangent impulse is `FrictionImpulse`: the old one plus `-tangentMass·(vt - tangentSpeed)`, clamped to the friction cone `[-friction*normalImpulse, friction*normalImpulse]`, and it lies in that cone; only the tangent impulse of the point changes; the bodies receive exactly the change of the accumulated impulse along the tangent |
| ContactSolve.FrictionImpulseClamps | Box2D.NET/Dynamics/Contacts/ContactSolver.cs:412-425 | the friction step keeps the unclamped impulse when it lies in the cone, and stops at the upper or lower edge of a non-empty cone when it lies beyond it |
| ContactSolve.NormalStep | Box2D.NET/Dynamics/Contacts/ContactSolver.cs:440-481 | the accumulated normal impulse becomes `max(old + lambda, 0)` with `lambda = -normalMass (vn - velocityBias)`, so it is never negative; the bodies receive exactly its change along the normal; nothing else in the point changes |
| ContactSolve.TangentPass | Box2D.NET/Dynamics/Contacts/ContactSolver.cs:398-437 | after the friction loop over the first `n` points each of them holds a tangent impulse inside its cone, later points are untouched, and the mass-weighted linear momentum of the two bodies is kept |
| ContactSolve.BlockStep | Box2D.NET/Dynamics/Contacts/ContactSolver.cs:523-809 | when the block solver accepts a pattern the two points take its impulses and the bodies receive, at both points along the normal, the change from the old accumulated impulses to the new ones (ApplyPointImpulses); when it accepts none the bodies and points are left as they were; only normal impulses change, non-negative impulses stay non-negative, and momentum is kept |
| ContactSolve.ApplyPointImpulses | Box2D.NET/Dynamics/Contacts/ContactSolver.cs:579-597 | applying the two point impulses together keeps the mass-weighted linear momentum `mB vA + mA vB` |
| ContactSolve.NormalPass | Box2D.NET/Dynamics/Contacts/ContactSolver.cs:440-809 | the normal step (one point) or the block step (two points) changes only normal impulses, leaves them non-negative at every active point and keeps momentum |
| ContactSolve.SolveContact | Box2D.NET/Dynamics/Contacts/ContactSolver.cs:369-818 | one constraint: bodies other than its two keep their velocities, only its impulses change, every active point ends with a non-negative normal impulse, every tangent impulse lies in the cone of the normal impulse it started with, and momentum is kept |
| ContactSolve.SolveContactReady | Box2D.NET/Dynamics/Contacts/ContactSolver.cs:528 | solving a constraint re-establishes the block solver's assertion that both accumulated normal impulses are non-negative, so the next iteration may run |
| ContactSolve.SolveVelocityConstraints | Box2D.NET/Dynamics/Contacts/ContactSolver.cs:367-820 | after the pass every solved constraint has only new impulses, all its active points pushing, and is ready for the next iteration; unsolved constraints are untouched |
| ContactBlock.BlockSolve | Box2D.NET/Dynamics/Contacts/ContactSolver.cs:554-809 | the outcome is pattern 1, 2, 3 or 4 exactly when that pattern is acceptable and every earlier one is not, and no pattern exactly when none is acceptable; accepted impulses are non-negative |
| ContactBlock.MatMulProduct | Box2D.NET/Dynamics/Contacts/ContactSolver.cs:566 | multiplying by the product of two matrices is multiplying by each in turn (the step from `normalMass` being the inverse of `K` to case 1 zeroing `vn`) |
| ContactBlock.AcceptedSolvesLcp | Box2D.NET/Dynamics/Contacts/ContactSolver.cs:488-521 | with `normalMass` inverting `K` and each point mass inverting its diagonal entry, every accepted outcome solves the complementarity problem `w = K x + b'`, `x >= 0`, `w >= 0`, `x_i w_i = 0` |
| ContactBlock.BothActiveSolves | Box2D.NET/Dynamics/Contacts/ContactSolver.cs:557-627 | case 1: with `normalMass` inverting `K`, an acceptable candidate `-normalMass b'` gives zero normal velocity at both points and solves the complementarity problem |
| ContactBlock.FirstActiveSolves | Box2D.NET/Dynamics/Contacts/ContactSolver.cs:628-695 | case 2: with the first point's mass inverting `K11`, an acceptable candidate `(-mass1 b'1, 0)` solves the complementarity problem |
| ContactBlock.SecondActiveSolves | Box2D.NET/Dynamics/Contacts/ContactSolver.cs:696-760 | case 3: with the second point's mass inverting `K22`, an acceptable candidate `(0, -mass2 b'2)` solves the complementarity problem |
| ContactPosition.PositionManifold | Box2D.NET/Dynamics/Contacts/ContactSolver.cs:1087-1136 | for a face manifold the point is the clip point moved by the other body's transform (B's for FACE_A, A's for FACE_B) |
| ContactPosition.CirclesSeparation | Box2D.NET/Dynamics/Contacts/ContactSolver.cs:1094-1104 | for circles at least EPSILON apart the normal is a unit vector and the separation is the centre distance less both radii |
| ContactPosition.FaceAAgreesWithWorld | Box2D.NET/Dynamics/Contacts/ContactSolver.cs:1108-1118 | for FACE_A the position solver's normal is the world manifold's normal, and the world manifold's point is the position solver's clip point moved back along the normal by half the separation plus B's radius |
| ContactPosition.FaceBAgreesWithWorld | Box2D.NET/Dynamics/Contacts/ContactSolver.cs:1121-1133 | for FACE_B both report the reversed normal (from A to B), and the world manifold's point is the position solver's clip point moved along it by half the separation plus A's radius |
| ContactPosition.FacePointSeenFromA | Box2D.NET/Dynamics/Contacts/ContactSolver.cs:1126-1132 | the world manifold's FACE_B point, computed with the radii swapped, is the clip point moved along the reversed normal by half the separation plus A's radius |
| ContactPosition.Correction | Box2D.NET/Dynamics/Contacts/ContactSolver.cs:934-935 | the position error `C` lies in `[-maxLinearCorrection, 0]` and, for a positive Baumgarte factor, is zero exactly when the separation is within the linear slop |
| ContactPosition.PositionImpulse | Box2D.NET/Dynamics/Contacts/ContactSolver.cs:940-943 | the impulse is never negative, cancels `C` through `K` when `K` is positive, and is zero when there is no error |
| ContactPosition.PointCorrection | Box2D.NET/Dynamics/Contacts/ContactSolver.cs:921-952 | one point's correction keeps the mass-weighted centre sum, moves nothing when the separation is within the slop, and leaves a body with zero inverse mass and inertia where it was |
| ContactPosition.Push | Box2D.NET/Dynamics/Contacts/ContactSolver.cs:945-952 | a position impulse keeps the mass-weighted centre sum, a zero impulse changes nothing, and a body with zero inverse mass and inertia does not move |
| ContactPosition.LinearisedCorrection | Box2D.NET/Dynamics/Contacts/ContactSolver.cs:934-952 | to first order the correction closes exactly the clamped error: the change of the gap along the unit normal at the contact point is `-C` |
| ContactPosition.PushGap | Box2D.NET/Dynamics/Contacts/ContactSolver.cs:937-952 | the first-order gap change of a push of size `j` is `j` times the effective-mass denominator `K` |
| ContactPosition.PointCorrectionDeltas | Box2D.NET/Dynamics/Contacts/ContactSolver.cs:945-952 | a point correction moves A against the normal by `mA j`, B along it by `mB j`, and turns each by its inverse inertia times the torque of the impulse |
| ContactPosition.PushDeltas | Box2D.NET/Dynamics/Contacts/ContactSolver.cs:947-952 | the displacements of a push along `n` of size `j` in closed form |
| ContactPosition.ConstraintPass | Box2D.NET/Dynamics/Contacts/ContactSolver.cs:912-953 | the inner loop records one separation per point, keeps the weighted centre sum, moves nothing when every separation is within the slop, and never moves a body whose masses are zero |
| ContactPosition.MassesFor | Box2D.NET/Dynamics/Contacts/ContactSolver.cs:984-998 | the time-of-impact pass zeroes body A's masses unless it is a sub-step body, but always keeps body B's masses (both branches of the B test assign the same values) |
| ContactPosition.MassesIntended | Box2D.NET/Dynamics/Contacts/ContactSolver.cs:984-998 | the intended masking: each body keeps its masses exactly when the pass may move it |
| ContactPosition.Beta | Box2D.NET/Dynamics/Contacts/ContactSolver.cs:935 | both Baumgarte factors (`baumgarte`, `toiBaugarte`) are positive |
| ContactPosition.PositionPass | Box2D.NET/Dynamics/Contacts/ContactSolver.cs:889-962 | bodies no constraint joins keep their positions, nothing moves when every separation is within the slop, and with the intended masking the time-of-impact pass moves only its two bodies |
| ContactPosition.ConstraintStep | Box2D.NET/Dynamics/Contacts/ContactSolver.cs:891-961 | one constraint moves at most its own two bodies, and none when all its separations are within the slop |
| ContactPosition.LowestMeets | Box2D.NET/Dynamics/Contacts/ContactSolver.cs:887-966 | the tracked `minSeparation`, starting at 0, is at least a non-positive tolerance exactly when every separation is |
| ContactPosition.Solve | Box2D.NET/Dynamics/Contacts/ContactSolver.cs:885-967 | the verdict is true exactly when every separation seen is at least the pass's tolerance; an empty solver succeeds without moving anything; untouched bodies keep their positions |
| ContactPosition.SolvePositionConstraints | Box2D.NET/Dynamics/Contacts/ContactSolver.cs:885-967 | true exactly when every separation is at least `-3 linearSlop`; nothing moves when all are within the slop |
| ContactPosition.SolveToiPositionConstraints | Box2D.NET/Dynamics/Contacts/ContactSolver.cs:970-1059 | as written: true exactly when every separation is at least `-1.5 linearSlop`; bodies joined by no constraint keep their positions |
| ContactPosition.SolveToiPositionConstraintsIntended | Box2D.NET/Dynamics/Contacts/ContactSolver.cs:970-1059 | with the intended masking, every body other than the two sub-step bodies keeps its position |
| ContactPosition.ToiMovesOtherBody | Box2D.NET/Dynamics/Contacts/ContactSolver.cs:992-998 | a concrete constraint from sub-step body 0 to body 2 moves body 2 by 0.1 although the pass may not move it |
| DistanceJoints.NewDistanceJoint | Box2D.NET/Dynamics/Joints/DistanceJoint.cs:91-102 | a new joint copies the definition's anchors, length and spring settings, with no accumulated impulse and a rigid (zero) softness and bias |
| DistanceJoints.GuardedInverse | Box2D.NET/Dynamics/Joints/DistanceJoint.cs:237 | the guarded inverse multiplies back to 1 for any non-zero value, is 0 for 0, and is positive for a positive value |
| DistanceJoints.Soften | Box2D.NET/Dynamics/Joints/DistanceJoint.cs:239-260 | with `omega = 2 pi f`, `k = m omega^2`, `d = 2 m zeta omega` and `p = h (d + h k)`: `gamma` inverts `p` when `p` is non-zero and is zero otherwise, the bias is `C h k gamma`, and the softened mass inverts the inverse mass plus `gamma`; for non-negative inputs `gamma` is non-negative and the bias has the sign of the length error |
| DistanceJoints.SoftSigns | Box2D.NET/Dynamics/Joints/DistanceJoint.cs:244-256 | the sign facts behind the spring terms: `gamma >= 0`, and `C h k gamma` has the sign of `C` |
| DistanceJoints.Axis | Box2D.NET/Dynamics/Joints/DistanceJoint.cs:220-229 | a span no longer than the slop gives the zero axis; with a sound square root the axis is a unit vector or zero, and for a span longer than the slop it is the unit vector that scales back to the span |
| DistanceJoints.ScaleToUnit | Box2D.NET/Dynamics/Joints/DistanceJoint.cs:223-224 | dividing a vector by its positive length gives a unit vector that, scaled by the length, is the vector again |
| DistanceJoints.PrepareJoint | Box2D.NET/Dynamics/Joints/DistanceJoint.cs:184-283 | the joint with the bodies' data cached, the lever arms rotated from the local anchors by the body positions, the axis along the span between the anchors, the mass inverting the (softened) inverse mass, the spring's `gamma` and bias for a positive frequency (none for a rigid joint), and the impulse scaled or cleared |
| DistanceJoints.InitVelocityConstraints | Box2D.NET/Dynamics/Joints/DistanceJoint.cs:184-293 | the bodies' island indices, masses and inertias are cached; the definition part is kept; the lever arms are the local anchors rotated by the body positions and the axis runs along the span between the anchors, unit or zero; a positive frequency gives the spring's `gamma` and bias; the mass inverts the (softened) inverse mass; a rigid joint has no softness; warm starting scales the impulse by the step ratio and the pair ends as after applying `impulse·u` at the lever arms, otherwise the impulse is cleared and no velocity changes; only the two bodies change, keeping the weighted momentum |
| DistanceJoints.PushPair | Box2D.NET/Dynamics/Joints/DistanceJoint.cs:272-292 | the warm-start write-back: the pair reads back as the impulse applied to it, no other body changes, and the weighted momentum is kept |
| DistanceJoints.SolveVelocityConstraints | Box2D.NET/Dynamics/Joints/DistanceJoint.cs:295-332 | the accumulated impulse grows by `-mass (Cdot + bias + gamma impulse)`; nothing else in the joint changes; only the two bodies change and the weighted momentum is kept |
| DistanceJoints.VelocitySolveMeetsConstraint | Box2D.NET/Dynamics/Joints/DistanceJoint.cs:306-324 | with a unit axis and the mass from initialisation, one velocity iteration makes the soft constraint's residual `Cdot + bias + gamma impulse` exactly zero (for a rigid joint, `Cdot == 0`) |
| DistanceJoints.SolvedPair | Box2D.NET/Dynamics/Joints/DistanceJoint.cs:316-329 | the pair after the velocity iteration is the old pair pushed by the iteration's impulse along the axis |
| DistanceJoints.PairResidual | Box2D.NET/Dynamics/Joints/DistanceJoint.cs:312-324 | the iteration's impulse applied to any pair zeroes the residual |
| DistanceJoints.GetReaction | Box2D.NET/Dynamics/Joints/DistanceJoint.cs:170-182 | the reaction force is `impulse * inv_dt` times the axis, so parallel to it, and the reaction torque is zero |
| DistanceJoints.ReactionRecoversImpulse | Box2D.NET/Dynamics/Joints/DistanceJoint.cs:170-182 | over a step of length `1 / inv_dt` the reported force gives back the impulse `impulse u` the joint applies |
| DistanceJoints.LengthError | Box2D.NET/Dynamics/Joints/DistanceJoint.cs:360-361 | the length error is clamped to `[-maxLinearCorrection, maxLinearCorrection]` and equals `length - rest` inside that band |
| DistanceJoints.RigidGeometry | Box2D.NET/Dynamics/Joints/DistanceJoint.cs:351-361 | the position iteration's error is the clamped difference between the normalised span's length and the rest length |
| DistanceJoints.SolvePositionConstraints | Box2D.NET/Dynamics/Joints/DistanceJoint.cs:334-383 | a spring joint moves nothing and succeeds; a rigid joint pushes its bodies by `-mass C` along the normalised span and succeeds exactly when the length error is within the slop; other bodies do not move and the weighted centre sum is kept |
| DistanceJoints.PlaceBack | Box2D.NET/Dynamics/Joints/DistanceJoint.cs:374-377 | writing the two bodies back changes exactly those two positions |
| DistanceJoints.LinearisedLengthCorrection | Box2D.NET/Dynamics/Joints/DistanceJoint.cs:359-372 | with a unit normalised span and the mass inverting the effective mass along it, a rigid position iteration changes the anchor distance, to first order, by exactly `-C` |
| DistanceJoints.RigidPushCloses | Box2D.NET/Dynamics/Joints/DistanceJoint.cs:363-372 | the push of `-mass C` along a unit axis changes the first-order gap by `-C` |
| FrictionJoints.NewFrictionJoint | Box2D.NET/main/java/org/jbox2d/dynamics/joints/FrictionJoint.cs:120-130 | a new joint copies the definition's anchors and limits and has no accumulated linear or angular impulse |
| FrictionJoints.SetMaxForce | Box2D.NET/main/java/org/jbox2d/dynamics/joints/FrictionJoint.cs:63-67 | the setter demands a non-negative force, sets only the force limit, and keeps both limits non-negative |
| FrictionJoints.SetMaxTorque | Box2D.NET/main/java/org/jbox2d/dynamics/joints/FrictionJoint.cs:77-81 | the setter demands a non-negative torque, sets only the torque limit, and keeps both limits non-negative |
| FrictionJoints.GetReaction | Box2D.NET/main/java/org/jbox2d/dynamics/joints/FrictionJoint.cs:144-154 | the reaction force is `inv_dt` times the linear impulse and the torque `inv_dt` times the angular impulse; so for a positive `inv_dt` the torque is positive exactly when the angular impulse is |
| FrictionJoints.CappedReaction | Box2D.NET/main/java/org/jbox2d/dynamics/joints/FrictionJoint.cs:144-154 | impulses capped at `dt` times the limits give a reaction at `1 / dt` within the limits: torque within `maxTorque`, force length within `maxForce` |
| FrictionJoints.SolvePositionConstraints | Box2D.NET/main/java/org/jbox2d/dynamics/joints/FrictionJoint.cs:332-336 | the joint has no position error: nothing moves and the iteration reports success |
| FrictionJoints.PointMassMatrix | Box2D.NET/main/java/org/jbox2d/dynamics/joints/FrictionJoint.cs:207-211 | the point mass matrix `K` is symmetric |
| FrictionJoints.AngularMass | Box2D.NET/main/java/org/jbox2d/dynamics/joints/FrictionJoint.cs:215-219 | the angular mass inverts `iA + iB` when that is positive and is left as `iA + iB` otherwise |
| FrictionJoints.InitVelocityConstraints | Box2D.NET/main/java/org/jbox2d/dynamics/joints/FrictionJoint.cs:159-254 | the bodies' data are cached and the limits kept; the lever arms are the local anchors rotated by the body positions; the linear mass inverts `K` (zero when `K` is singular); warm starting scales both impulses by the step ratio and the pair ends as after WarmPush with the scaled impulses, otherwise both are cleared and no velocity changes; only the two bodies change, keeping the weighted momentum |
| FrictionJoints.WarmPush | Box2D.NET/main/java/org/jbox2d/dynamics/joints/FrictionJoint.cs:228-237 | the warm-start push applies the linear impulse at the lever arms and then turns A by `-iA·angularImpulse` and B by `+iB·angularImpulse`; it keeps the weighted linear momentum and changes nothing when both impulses are zero |
| FrictionJoints.AngularBlock | Box2D.NET/main/java/org/jbox2d/dynamics/joints/FrictionJoint.cs:269-281 | only the angular impulse changes and it stays within `[-maxImpulse, maxImpulse]`, equal to the unclamped value inside the band; linear velocities are untouched, a body with zero inverse inertia keeps its spin, and the angular momentum `wA/iA + wB/iB` is kept (stated multiplied out) |
| FrictionJoints.CapImpulse | Box2D.NET/main/java/org/jbox2d/dynamics/joints/FrictionJoint.cs:305-311 | an impulse within the cap is kept as it is; with a sound square root the result never exceeds the cap |
| FrictionJoints.LinearBlock | Box2D.NET/main/java/org/jbox2d/dynamics/joints/FrictionJoint.cs:284-322 | only the linear impulse changes; with a sound square root it stays within the cap; the weighted momentum is kept and a body with no inverse mass and inertia keeps its velocity |
| FrictionJoints.LinearBlockStopsSliding | Box2D.NET/main/java/org/jbox2d/dynamics/joints/FrictionJoint.cs:284-322 | when the linear mass inverts `K` for the inertias in use and the cap is not reached, the linear block makes the anchors' relative velocity exactly zero |
| FrictionJoints.ImpulseMovesAnchors | Box2D.NET/main/java/org/jbox2d/dynamics/joints/FrictionJoint.cs:315-321 | an impulse `P` at the anchors changes the anchors' relative velocity by `K P`, which is what makes `K` the point mass matrix |
| FrictionJoints.Blocks | Box2D.NET/main/java/org/jbox2d/dynamics/joints/FrictionJoint.cs:269-322 | the angular block then the linear block: only the two impulses change, both within their caps, the weighted momentum is kept, and a body with no inverse mass and inertia keeps its velocity |
| FrictionJoints.SolveWith | Box2D.NET/main/java/org/jbox2d/dynamics/joints/FrictionJoint.cs:256-330 | one velocity iteration with given inverse inertias: the caps are `dt maxTorque` and `dt maxForce`, other bodies keep their velocities, and the pair written back is the blocks' pair |
| FrictionJoints.SolveVelocityConstraints | Box2D.NET/main/java/org/jbox2d/dynamics/joints/FrictionJoint.cs:256-330 | as written (both inertias read from body B): the impulses stay within their caps, so the reaction at the step's rate stays within `maxTorque` and `maxForce`; other bodies keep their velocities, and the weighted momentum is kept |
| FrictionJoints.SolveVelocityConstraintsIntended | Box2D.NET/main/java/org/jbox2d/dynamics/joints/FrictionJoint.cs:256-330 | with each body's own inertia: additionally, a body with no inverse mass and no inverse inertia keeps its velocity |
| FrictionJoints.StaticBodySpins | Box2D.NET/main/java/org/jbox2d/dynamics/joints/FrictionJoint.cs:265 | a static body A next to a body B spinning at 1 is given spin 1 by the iteration as written, and stays at rest under the intended one |
| Joints.UnlinkedEdge | Box2D.NET/Dynamics/Joints/Joint.cs:121-131 | a joint edge as the constructor leaves it has every link null |
| Joints.NewJoint | Box2D.NET/Dynamics/Joints/Joint.cs:106-135 | the base constructor demands two different bodies, copies the definition's tag, bodies, collide flag and user data, and leaves the joint outside the world list and every island, with index 0 and unlinked edges |
| Joints.IsActive | Box2D.NET/Dynamics/Joints/Joint.cs:242-245 | a joint is active exactly when both of its bodies are |
| Joints.Create | Box2D.NET/Dynamics/Joints/Joint.cs:41-78 | the factory builds a joint exactly for the eight handled tags (WHEEL and GEAR are commented out and give null), and the built class reports the definition's tag |
| Joints.CreateInvertsTag | Box2D.NET/Dynamics/Joints/Joint.cs:44-76 | every joint class is built from exactly its own tag |
| Joints.CreateRejectsWheelAndGear | Box2D.NET/Dynamics/Joints/Joint.cs:64-70 | WHEEL and GEAR definitions give null |
| Joints.CreateJoint | Box2D.NET/Dynamics/Joints/ConstantVolumeJoint.cs:121 | the world's `createJoint`, as the ring calls it, registers the joint under a handle not in use before and keeps every handle below the registry's counter |
| Joints.DestroyJoint | Box2D.NET/Dynamics/Joints/ConstantVolumeJoint.cs:148 | the world's `destroyJoint`, as the ring calls it, removes exactly that handle from the registry |
| ConstantVolumeJoints.Next | Box2D.NET/Dynamics/Joints/ConstantVolumeJoint.cs:117 | the successor of ring position `i`, computed with the explicit wrap, is `(i + 1) mod n` |
| ConstantVolumeJoints.Prev | Box2D.NET/Dynamics/Joints/ConstantVolumeJoint.cs:180-195 | each ring position is the successor of exactly one position, its predecessor |
| ConstantVolumeJoints.AreaIsShoelace | Box2D.NET/Dynamics/Joints/ConstantVolumeJoint.cs:67-81 | the `Area` getter (the closing term first, then the loop) is half the shoelace sum over every edge of the closed ring |
| ConstantVolumeJoints.CyclicPrefix | Box2D.NET/Dynamics/Joints/ConstantVolumeJoint.cs:74-77 | the getter's loop is the shoelace sum over the open chain of ring edges |
| ConstantVolumeJoints.AreaTranslationInvariant | Box2D.NET/Dynamics/Joints/ConstantVolumeJoint.cs:67-81 | moving every body by the same vector leaves the computed area unchanged |
| ConstantVolumeJoints.ChainSumTelescopes | Box2D.NET/Dynamics/Joints/ConstantVolumeJoint.cs:74-77 | translating the ring changes the loop's sum only through its two end points |
| ConstantVolumeJoints.TargetLengthsAreDistances | Box2D.NET/Dynamics/Joints/ConstantVolumeJoint.cs:98-104 | with a sound square root, each target length is the non-negative distance from a body to its ring successor |
| ConstantVolumeJoints.RingLink | Box2D.NET/Dynamics/Joints/ConstantVolumeJoint.cs:113-121 | the distance joint for edge `i` joins body `i` to body `(i + 1) mod n` with the definition's spring settings |
| ConstantVolumeJoints.LinkRestsAtTargetLength | Box2D.NET/Dynamics/Joints/ConstantVolumeJoint.cs:98-120 | each created distance joint's rest length is the ring's target length for that edge |
| ConstantVolumeJoints.CreateLinks | Box2D.NET/Dynamics/Joints/ConstantVolumeJoint.cs:113-122 | the creation loop adds exactly one new, distinct distance joint per edge to the world and leaves every existing joint as it was |
| ConstantVolumeJoints.WiredExtends | Box2D.NET/Dynamics/Joints/ConstantVolumeJoint.cs:115-122 | one more iteration of the creation loop keeps that description true |
| ConstantVolumeJoints.NewCvj | Box2D.NET/Dynamics/Joints/ConstantVolumeJoint.cs:88-141 | fewer than three bodies throws, and so does a supplied joint list of the wrong length; a throw leaves the world unchanged; otherwise the ring holds the definition's bodies, the target lengths and area of the current centres, zero normals, bodies A and B as its first two bodies, no collision, and either adopts the supplied joints or has exactly one new joint per edge |
| ConstantVolumeJoints.RingIsCycle | Box2D.NET/Dynamics/Joints/ConstantVolumeJoint.cs:113-122 | a ring built without supplied joints is wired as a cycle: joint `i` joins body `i` to body `(i + 1) mod n` and there are `n` joints |
| ConstantVolumeJoints.DestroyAll | Box2D.NET/Dynamics/Joints/ConstantVolumeJoint.cs:146-149 | destroying a list of joints removes exactly their handles from the registry |
| ConstantVolumeJoints.Destructor | Box2D.NET/Dynamics/Joints/ConstantVolumeJoint.cs:144-150 | the destructor removes exactly the ring's distance joints from the world |
| ConstantVolumeJoints.DestroyUndoesConstruction | Box2D.NET/Dynamics/Joints/ConstantVolumeJoint.cs:88-150 | building a ring that makes its own joints and then destroying it leaves the world's joints exactly as they were |
| ConstantVolumeJoints.Destroy | Box2D.NET/Dynamics/Joints/Joint.cs:80-83 | `destroy` on a joint with the base destructor changes nothing; on a constant-volume joint it removes the ring's distance joints |
| ConstantVolumeJoints.Inflate | Box2D.NET/Dynamics/Joints/ConstantVolumeJoint.cs:83-86 | `inflate` scales the target area and changes nothing else |
| ConstantVolumeJoints.InflateComposes | Box2D.NET/Dynamics/Joints/ConstantVolumeJoint.cs:83-86 | inflating by `f` and then by `g` is inflating by `f g` |
| ConstantVolumeJoints.InflateUndone | Box2D.NET/Dynamics/Joints/ConstantVolumeJoint.cs:83-86 | inflating by `f` and then by `1/f` restores the joint |
| ConstantVolumeJoints.EdgeLength | Box2D.NET/Dynamics/Joints/ConstantVolumeJoint.cs:162-168 | the edge length is the distance to the successor, or 1 when that is below EPSILON, so it is never below EPSILON |
| ConstantVolumeJoints.EdgeNormal | Box2D.NET/Dynamics/Joints/ConstantVolumeJoint.cs:169-170 | each stored normal is perpendicular to its edge and lies on its right-hand side |
| ConstantVolumeJoints.EdgeNormalIsUnit | Box2D.NET/Dynamics/Joints/ConstantVolumeJoint.cs:164-170 | with a sound square root, the normal of an edge at least EPSILON long is a unit vector |
| ConstantVolumeJoints.Perimeter | Box2D.NET/Dynamics/Joints/ConstantVolumeJoint.cs:158-172 | the perimeter accumulated over `k` edges is at least `k EPSILON`, so the extrusion's division is by a positive number |
| ConstantVolumeJoints.Capped | Box2D.NET/Dynamics/Joints/ConstantVolumeJoint.cs:185-189 | a push within maxLinearCorrection is kept; capping never turns a push; with a sound square root the capped push is at most maxLinearCorrection long |
| ConstantVolumeJoints.Moved | Box2D.NET/Dynamics/Joints/ConstantVolumeJoint.cs:180-199 | after `k` iterations of the second loop, a body has moved once, by the capped push of the edge ending at it, if that edge is among the first `k`, and not at all otherwise |
| ConstantVolumeJoints.Settled | Box2D.NET/Dynamics/Joints/ConstantVolumeJoint.cs:179-193 | the `done` flag stays set exactly when no uncapped push so far exceeded linearSlop |
| ConstantVolumeJoints.ConstrainEdges | Box2D.NET/Dynamics/Joints/ConstantVolumeJoint.cs:156-204 | only the normals change in the joint, each perpendicular to its edge; `done` holds exactly when every uncapped push is within linearSlop; each body moves by the capped push of the edge ending at it |
| ConstantVolumeJoints.Displacement | Box2D.NET/Dynamics/Joints/ConstantVolumeJoint.cs:194-195 | each body's displacement is the capped push of the edge ending at it |
| ConstantVolumeJoints.PushesCapped | Box2D.NET/Dynamics/Joints/ConstantVolumeJoint.cs:185-189 | with a sound square root no body moves further than maxLinearCorrection |
| ConstantVolumeJoints.DoneMeansSmallMoves | Box2D.NET/Dynamics/Joints/ConstantVolumeJoint.cs:186-193 | with a sound square root, when `constrainEdges` reports done no body moved further than linearSlop |
| ConstantVolumeJoints.NoPushOnTarget | Box2D.NET/Dynamics/Joints/ConstantVolumeJoint.cs:176-183 | a ring that already encloses its target area has a zero push at every edge |
| ConstantVolumeJoints.StillOnTarget | Box2D.NET/Dynamics/Joints/ConstantVolumeJoint.cs:176-195 | a ring on target leaves each body where it was |
| ConstantVolumeJoints.OnTargetIsAtRest | Box2D.NET/Dynamics/Joints/ConstantVolumeJoint.cs:176-203 | a ring on target moves no body, and reports done when the square root of 0 is 0 |
| ConstantVolumeJointDefs.NewCvjDef | Box2D.NET/Dynamics/Joints/ConstantVolumeJointDef.cs:44-53 | a new definition has the CONSTANT_VOLUME tag, no bodies, no joint list, no collision between its bodies and a zero spring |
| ConstantVolumeJointDefs.AddBody | Box2D.NET/Dynamics/Joints/ConstantVolumeJointDef.cs:59-70 | the body is appended; the first body added becomes body A and the second body B, later ones change neither, and nothing else changes |
| ConstantVolumeJointDefs.AddBodyAndJoint | Box2D.NET/Dynamics/Joints/ConstantVolumeJointDef.cs:76-84 | `addBody`, then the joint is appended to the joint list, which is created on first use; used alone it keeps exactly one joint per body |
| ConstantVolumeJointDefs.AddBodies | Box2D.NET/Dynamics/Joints/ConstantVolumeJointDef.cs:59-70 | adding bodies in turn appends them in order, leaves the joint list alone, and keeps bodies A and B as the first two |
| ConstantVolumeJointDefs.AddBodiesAndJoints | Box2D.NET/Dynamics/Joints/ConstantVolumeJointDef.cs:76-84 | adding body-joint pairs in turn appends both lists in order and keeps one joint per body |
| ConstantVolumeJointDefs.BodiesOnly | Box2D.NET/Dynamics/Joints/ConstantVolumeJointDef.cs:44-70 | a ring described body by body lists exactly those bodies, has no joint list (which the joint constructor accepts) and names the first two as bodies A and B |
| ConstantVolumeJointDefs.BodiesWithJoints | Box2D.NET/Dynamics/Joints/ConstantVolumeJointDef.cs:44-84 | a ring deserialised body and joint at a time lists exactly those bodies and exactly those joints |
| ConstantVolumeJointDefs.AddBodyUnmatches | Box2D.NET/Dynamics/Joints/ConstantVolumeJointDef.cs:59-84 | a plain `addBody` after the joint list exists leaves a body without a joint, which the joint constructor rejects |
| EdgeShapes.NewEdgeShape | Box2D.NET/Collision/Shapes/EdgeShape.cs:66-70 | a new edge has the polygon skin radius and no neighbour vertices |
| EdgeShapes.ChildCount | Box2D.NET/Collision/Shapes/EdgeShape.cs:72-78 | an edge always has exactly one child |
| EdgeShapes.TestPoint | Box2D.NET/Collision/Shapes/EdgeShape.cs:87-90 | no point is ever inside an edge |
| EdgeShapes.Set | Box2D.NET/Collision/Shapes/EdgeShape.cs:80-85 | `Set` replaces both vertices, clears both neighbour flags, and keeps the radius and the neighbour vertices |
| EdgeShapes.SetOverrides | Box2D.NET/Collision/Shapes/EdgeShape.cs:80-85 | a second `Set` wipes out the first |
| EdgeShapes.Clone | Box2D.NET/Collision/Shapes/EdgeShape.cs:187-198 | the clone equals the original in the radius, both flags and all four vertices |
| EdgeShapes.ComputeAABB | Box2D.NET/Collision/Shapes/EdgeShape.cs:163-178 | with a non-negative radius the box is well formed and contains both world vertices; it is tight: each bound less its padding is a vertex coordinate |
| EdgeShapes.ComputeMass | Box2D.NET/Collision/Shapes/EdgeShape.cs:180-185 | an edge has zero mass and inertia whatever the density, and its centre is the midpoint, equally far from both vertices |
| EdgeShapes.CastLocal | Box2D.NET/Collision/Shapes/EdgeShape.cs:100-160 | in the edge's frame: a miss leaves the output as it was; a ray parallel to the edge or a point-like edge misses; a hit has a fraction in [0, 1] whose ray point lies on the edge's line and between its vertices, and its normal faces the ray's start |
| EdgeShapes.OnEdgeLine | Box2D.NET/Collision/Shapes/EdgeShape.cs:108-120 | the fraction `numerator / denominator` puts the ray point on the edge's line |
| EdgeShapes.RaycastAsWritten | Box2D.NET/Collision/Shapes/EdgeShape.cs:92-161 | the ray cast as written (the first point turned into the frame twice, the second not at all): a miss leaves the output alone, a hit fraction lies in [0, 1], a point-like edge is never hit |
| EdgeShapes.Raycast | Box2D.NET/Collision/Shapes/EdgeShape.cs:92-161 | the ray cast with both points put into the frame once: the same guarantees as written |
| EdgeShapes.RaycastHitsWorldEdgeLine | Box2D.NET/Collision/Shapes/EdgeShape.cs:95-161 | with the intended frame change and a unit rotation, a hit at fraction `t` puts the point `t` along the world ray on the line of the world edge |
| EdgeShapes.IntendedKeepsRay | Box2D.NET/Collision/Shapes/EdgeShape.cs:95-100 | the intended frame change turns the ray's direction back by the frame's rotation and keeps its length |
| EdgeShapes.AgreeWithoutRotation | Box2D.NET/Collision/Shapes/EdgeShape.cs:96-99 | with the identity rotation the written and the intended ray casts agree, so the defect shows only in a rotated frame |
| EdgeShapes.AsWrittenCollapsesRay | Box2D.NET/Collision/Shapes/EdgeShape.cs:96-99 | under a quarter turn, the written frame change maps the start of a ray symmetric about the origin onto its end, so the ray has zero length |
| EdgeShapes.AsWrittenMissesQuarterTurn | Box2D.NET/Collision/Shapes/EdgeShape.cs:96-99 | under a quarter turn the written ray cast misses every edge for a ray symmetric about the origin, including an edge the ray crosses |
| EdgeShapes.WorldRayPoint | Box2D.NET/Collision/Shapes/EdgeShape.cs:95-100 | turning a local ray point back to the world gives the world ray point less the frame's translation |
| EdgeShapes.RotMulKeepsDot | Box2D.NET/Collision/Shapes/EdgeShape.cs:95-97 | a unit rotation keeps dot products, so lying on a line is frame independent |
| FloatArrays.NewPool | Box2D.NET/Pooling/Arrays/FloatArray.cs:36 | a new cache is empty and consistent |
| FloatArrays.Zeros | Box2D.NET/Pooling/Arrays/FloatArray.cs:51-54 | a new array has the requested length and holds only zeros |
| FloatArrays.Get | Box2D.NET/Pooling/Arrays/FloatArray.cs:38-49 | for a positive length: the array cached for that length is returned and the cache is unchanged; otherwise a new zero-filled array is built, cached under the length and returned; the cache stays consistent |
| FloatArrays.Store | Box2D.NET/Pooling/Arrays/FloatArray.cs:47-48 | a caller's write changes one cell of one array and nothing else, and keeps the cache consistent |
| FloatArrays.GetIsIdempotent | Box2D.NET/Pooling/Arrays/FloatArray.cs:40-48 | asking twice for the same length returns the same array and leaves the cache as the first call left it |
| FloatArrays.GetOnlyAdds | Box2D.NET/Pooling/Arrays/FloatArray.cs:42-45 | entries are only ever added: an array cached earlier stays cached under its length with its contents |
| FloatArrays.FirstGetIsZero | Box2D.NET/Pooling/Arrays/FloatArray.cs:42-54 | the first request for a length hands out zeros |
| FloatArrays.ReuseSeesEarlierWrites | Box2D.NET/Pooling/Arrays/FloatArray.cs:40-48 | the cache never clears an array: what one caller wrote is what the next caller of that length finds, whatever was asked for in between |
| FloatArrays.DistinctLengthsDistinctArrays | Box2D.NET/Pooling/Arrays/FloatArray.cs:40-48 | arrays for different lengths are different objects |

## Left out

- Floating-point rounding, overflow to infinity and NaN: every scalar is an exact `real`, so accuracy and convergence are not claimed.
- `Vec2`, `Rot`, `Mat22`, `Transform`, `MathUtils` and `Settings` are not part of this model. `Geometry` writes out the standard formulas: a rotation is `(s, c)`, a singular `Mat22` inverts to zero, and `normalize` leaves a vector shorter than `EPSILON` unchanged. `Settings` takes the usual JBox2D constants. The general properties rest on their signs, on `EPSILON` being below 1, on `linearSlop` being below `maxLinearCorrection` (the distance joint's `ok` verdict needs it) and on `maxManifoldPoints` being 2. The concrete counterexamples use the values themselves: `ContactPosition.ToiMovesOtherBody` uses `toiBaugarte = 0.75` and `maxLinearCorrection = 0.2`.
- The square root, sine and cosine are uninterpreted. Results that depend on them hold for any kit unless they require `SoundSqrt`.
- The `IWorldPool` stacks and the preallocated scratch vectors of every class are not modelled: they are performance artefacts with no effect on results.
- Body, world and fixture internals are not part of this model: `WorldCenter`, `synchronizeTransform`, `GetWorldPointToOut` and the sweep. Body centres and transforms are passed in as plain values.
- `World.createJoint` and `World.destroyJoint` are modelled only as a registry of distance links keyed by handle, with the next unused handle. Body joint lists and island flags are not modelled.
- `PositionSolverManifold.initialize` is modelled case by case for separation, normal and point. The circle case's `normalize` goes through the uninterpreted square root. The position passes take the manifold's output as given.
- The `DEBUG_SOLVER` block of the contact solver and the commented-out code are left out. The constant is false, so the block never runs.
- A contact whose two bodies share an island index (`indexA == indexB`) is excluded. In the engine both bodies' linear velocities are then the same `Vec2` object, updated in place, so both linear changes accumulate on it; the angular velocities are local copies, and the write of B's angular velocity overwrites A's. The model writes each body's entry separately and assumes two distinct entries.
- The constant-volume joint's own `initVelocityConstraints` and `solveVelocityConstraints` are not modelled. Unlike the other joints they read and write the `Body` objects directly (`WorldCenter`, `Mass`, `m_linearVelocity`) instead of the solver's position and velocity arrays, and body internals are not part of this model. The solve also divides by each body's `Mass`, which is zero for a static body, so its impulse would be infinite or NaN, which exact reals cannot represent. Its position pass is `constrainEdges`, which is modelled, together with its construction, area, `inflate` and destruction.
- `DistanceJointDef.initialize` is not part of this model. The ring's links take the distance between the two world centres as their rest length, which is what it computes.
- The base `JointDef` defaults (no bodies, no user data, no collision) are taken from JBox2D. Its file is not part of this model.
- A constant-volume ring that lists the same body twice is not rejected by the engine. The model accepts it too but proves nothing about its physics.
- `EdgeShapes.Raycast` and `EdgeShapes.RaycastAsWritten` ignore the input's `maxFraction`, as the engine does. The fraction bound is therefore `[0, 1]`, not `[0, maxFraction]`.
- `EdgeShapes.RaycastHitsWorldEdgeLine` states the intended frame property for every ray, but no concrete ray is exhibited that the corrected cast hits.
- `ConstantVolumeJoints.OnTargetIsAtRest` gets `done` only under the hypothesis that the kit's square root of 0 is 0; `SoundSqrt` implies it but the lemma does not derive it.
- `PulleyJointDef`, `MouseJointDef`, the two `TreeNode` classes, `DistanceOutput`, `RayCastOutput` and `BodyType` are plain data records or defaults with no behaviour of their own. They are not modelled, except for the ray-cast output record, which `EdgeShapes` uses.

## Findings

| source | as written | input that shows it | evidently intended | confidence | as-written member | corrected member |
|---|---|---|---|---|---|---|
| Box2D.NET/Collision/ContactID.cs:92 | the copy sets `indexB` from the source's `indexA` | copying an id with `indexA = 1`, `indexB = 2` gives `indexB = 1`, so the copy is not equal to its source | `indexB` copied from the source's `indexB`, so the copy equals its source | not executed | ContactIds.SetFrom, ContactIds.SetFromLosesIndexB | ContactIds.SetFromIntended |
| Box2D.NET/main/java/org/jbox2d/dynamics/joints/FrictionJoint.cs:265 | body A's inverse inertia is read from body B (`iA = m_invIB`) | a static body A (inverse inertia 0) against a spinning body B gets an angular velocity change | `iA = m_invIA`, so a body with zero inverse inertia never turns | not executed | FrictionJoints.SolveVelocityConstraints, FrictionJoints.StaticBodySpins | FrictionJoints.SolveVelocityConstraintsIntended |
| Box2D.NET/Dynamics/Contacts/ContactSolver.cs:992-998 | body B's mass is set to its real mass in both branches of the time-of-impact test | sub-step bodies 0 and 1, a constraint from body 0 to body 2, both of inverse mass 1, penetrating by 1 along (1, 0): body 2 is pushed by 0.1 | body B's mass is zeroed when it is not a time-of-impact body, so only the two sub-step bodies move | not executed | ContactPosition.SolveToiPositionConstraints, ContactPosition.ToiMovesOtherBody | ContactPosition.SolveToiPositionConstraintsIntended |
| Box2D.NET/Collision/Shapes/EdgeShape.cs:96-99 | the ray's first point is rotated into the edge frame twice and its second point never | under a quarter-turn frame, the ray from (-1, 0) to (1, 0) collapses to a point and misses the edge from (0, -1) to (0, 1) that it crosses | each point is translated and rotated once | not executed | EdgeShapes.RaycastAsWritten, EdgeShapes.AsWrittenMissesQuarterTurn | EdgeShapes.Raycast, EdgeShapes.RaycastHitsWorldEdgeLine |
