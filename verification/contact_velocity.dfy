/** Velocity-level preparation of the contact solver
    (Dynamics/Contacts/ContactSolver.cs): `warmStart`, which re-applies the
    seeded impulses, and `initializeVelocityConstraints`, which computes each
    point's lever arms, effective masses and restitution bias and prepares the
    two-point block solver. */
module ContactVelocity {
  import opened Geometry
  import opened SolverData
  import opened Manifolds
  import opened WorldManifolds
  import opened ContactConstraints
  import Settings

  /** Ensures a reasonable condition number for the block solver. */
  const k_maxConditionNumber: real := 100.0

  /** The constraint acts on two different bodies of a velocity array of length
      `n`, and has room for its points. */
  predicate Acts(vc: VelocityConstraint, n: nat) {
    vc.indexA < n && vc.indexB < n && vc.indexA != vc.indexB
    && |vc.points| == Settings.maxManifoldPoints && vc.pointCount <= Settings.maxManifoldPoints
  }

  /** The friction direction, `cross(normal, 1)`. */
  function Tangent(normal: Vec2): (t: Vec2)
    ensures Dot(t, normal) == 0.0
    ensures LengthSquared(t) == LengthSquared(normal)
  {
    CrossVS(normal, 1.0)
  }

  /** The impulse a warm start re-applies at point `j`. */
  function SeededImpulse(vc: VelocityConstraint, j: nat): Vec2
    requires j < |vc.points|
  {
    Add(Scale(vc.points[j].tangentImpulse, Tangent(vc.normal)), Scale(vc.points[j].normalImpulse, vc.normal))
  }

  /** Points `0 .. n-1` carry no impulse. */
  predicate Cold(vc: VelocityConstraint, n: nat)
    requires n <= |vc.points|
  {
    forall j :: 0 <= j < n ==> vc.points[j].normalImpulse == 0.0 && vc.points[j].tangentImpulse == 0.0
  }

  /** The sum of the impulses re-applied at points `0 .. n-1`. */
  function SeededSum(vc: VelocityConstraint, n: nat): Vec2
    requires n <= |vc.points|
  {
    if n == 0 then Zero() else Add(SeededSum(vc, n - 1), SeededImpulse(vc, n - 1))
  }

  /** The sum of the moments `rA x P` (about A when `onA`) or `rB x P` (about
      B) of the impulses re-applied at points `0 .. n-1`. */
  function SeededMoment(vc: VelocityConstraint, n: nat, onA: bool): real
    requires n <= |vc.points|
  {
    if n == 0 then 0.0
    else
      var pt := vc.points[n - 1];
      SeededMoment(vc, n - 1, onA) + Cross(if onA then pt.rA else pt.rB, SeededImpulse(vc, n - 1))
  }

  /** The pair `p` after the impulses of points `0 .. n-1` are applied all at
      once: A loses `mA` times their sum and `iA` times the sum of their
      moments about A; B gains the same on its side. */
  function AllAtOnce(p: BodyPair, vc: VelocityConstraint, n: nat): BodyPair
    requires n <= |vc.points|
  {
    BodyPair(Sub(p.vA, Scale(vc.invMassA, SeededSum(vc, n))), p.wA - vc.invIA * SeededMoment(vc, n, true),
             Add(p.vB, Scale(vc.invMassB, SeededSum(vc, n))), p.wB + vc.invIB * SeededMoment(vc, n, false))
  }

  /** The warm start of one contact, point by point in order. It ends where
      applying all the points' impulses at once would. */
  function WarmStartPoints(p: BodyPair, vc: VelocityConstraint, n: nat): (r: BodyPair)
    requires n <= |vc.points|
    ensures r == AllAtOnce(p, vc, n)
    ensures WeightedMomentum(r, vc.invMassA, vc.invMassB) == WeightedMomentum(p, vc.invMassA, vc.invMassB)
    ensures Cold(vc, n) ==> r == p
    decreases n
  {
    if n == 0 then p
    else
      var q := WarmStartPoints(p, vc, n - 1);
      var j := n - 1;
      ApplyImpulseConservesMomentum(q, vc.invMassA, vc.invIA, vc.invMassB, vc.invIB,
                                    vc.points[j].rA, vc.points[j].rB, SeededImpulse(vc, j));
      AllAtOnceStep(p, vc, n);
      ApplyImpulse(q, vc.invMassA, vc.invIA, vc.invMassB, vc.invIB,
                   vc.points[j].rA, vc.points[j].rB, SeededImpulse(vc, j))
  }

  /** One more point's impulse on top of the first `n - 1` is the first `n`
      all at once. */
  lemma {:induction false} AllAtOnceStep(p: BodyPair, vc: VelocityConstraint, n: nat)
    requires 0 < n <= |vc.points|
    ensures ApplyImpulse(AllAtOnce(p, vc, n - 1), vc.invMassA, vc.invIA, vc.invMassB, vc.invIB,
                         vc.points[n - 1].rA, vc.points[n - 1].rB, SeededImpulse(vc, n - 1))
            == AllAtOnce(p, vc, n)
  {
    var j := n - 1;
    var P := SeededImpulse(vc, j);
    assert SeededSum(vc, n) == Add(SeededSum(vc, j), P);
    assert SeededMoment(vc, n, true) == SeededMoment(vc, j, true) + Cross(vc.points[j].rA, P);
    assert SeededMoment(vc, n, false) == SeededMoment(vc, j, false) + Cross(vc.points[j].rB, P);
    PairAccumulates(p, vc.invMassA, vc.invIA, vc.invMassB, vc.invIB, vc.points[j].rA, vc.points[j].rB,
                    SeededSum(vc, j), SeededMoment(vc, j, true), SeededMoment(vc, j, false), P);
  }

  /** The pair after sums `S`, `sA`, `sB` have been applied, pushed once more
      by `P`, is the pair after the sums including `P` are applied. */
  lemma PairAccumulates(p: BodyPair, mA: real, iA: real, mB: real, iB: real, rA: Vec2, rB: Vec2,
                        S: Vec2, sA: real, sB: real, P: Vec2)
    ensures ApplyImpulse(BodyPair(Sub(p.vA, Scale(mA, S)), p.wA - iA * sA, Add(p.vB, Scale(mB, S)), p.wB + iB * sB),
                         mA, iA, mB, iB, rA, rB, P)
            == BodyPair(Sub(p.vA, Scale(mA, Add(S, P))), p.wA - iA * (sA + Cross(rA, P)),
                        Add(p.vB, Scale(mB, Add(S, P))), p.wB + iB * (sB + Cross(rB, P)))
  {
    Accumulates(p.vA, mA, S, P);
    Accumulates(p.vB, mB, S, P);
    TurnAccumulates(p.wA, iA, sA, Cross(rA, P));
    TurnAccumulates(p.wB, iB, sB, Cross(rB, P));
  }

  /** Taking off (or adding) `m S` and then `m P` is taking off (or adding) `m (S + P)`. */
  lemma Accumulates(v: Vec2, m: real, S: Vec2, P: Vec2)
    ensures Sub(Sub(v, Scale(m, S)), Scale(m, P)) == Sub(v, Scale(m, Add(S, P)))
    ensures Add(Add(v, Scale(m, S)), Scale(m, P)) == Add(v, Scale(m, Add(S, P)))
  {
  }

  /** Adding `i a` and then `i c` is adding `i (a + c)`. */
  lemma TurnAccumulates(w: real, i: real, a: real, c: real)
    ensures w + i * a + i * c == w + i * (a + c)
    ensures w - i * a - i * c == w - i * (a + c)
  {
  }

  /** `warmStart` for one constraint: only its two bodies change, and a
      constraint without impulses changes nothing. */
  function WarmStartContact(vel: seq<Velocity>, vc: VelocityConstraint): (r: seq<Velocity>)
    requires Acts(vc, |vel|)
    ensures |r| == |vel|
    ensures PairOf(r, vc.indexA, vc.indexB) == AllAtOnce(PairOf(vel, vc.indexA, vc.indexB), vc, vc.pointCount)
    ensures forall k :: 0 <= k < |vel| && k != vc.indexA && k != vc.indexB ==> r[k] == vel[k]
    ensures Cold(vc, vc.pointCount) ==> r == vel
  {
    var p := PairOf(vel, vc.indexA, vc.indexB);
    WriteBackReadsBack(vel, vc.indexA, vc.indexB, WarmStartPoints(p, vc, vc.pointCount));
    var r := WriteBack(vel, vc.indexA, vc.indexB, WarmStartPoints(p, vc, vc.pointCount));
    assert Cold(vc, vc.pointCount) ==> r == vel by {
      if Cold(vc, vc.pointCount) {
        assert WarmStartPoints(p, vc, vc.pointCount) == p;
      }
    }
    r
  }

  /** Every one of the first `n` constraints can act on `|vel|` bodies. */
  predicate AllAct(vcs: seq<VelocityConstraint>, n: nat, bodies: nat) {
    n <= |vcs| && forall i :: 0 <= i < n ==> Acts(vcs[i], bodies)
  }

  /** `warmStart`: every constraint in turn. */
  function WarmStart(vel: seq<Velocity>, vcs: seq<VelocityConstraint>, n: nat): (r: seq<Velocity>)
    requires AllAct(vcs, n, |vel|)
    ensures |r| == |vel|
    ensures (forall i :: 0 <= i < n ==> Cold(vcs[i], vcs[i].pointCount)) ==> r == vel
    decreases n
  {
    if n == 0 then vel
    else WarmStartContact(WarmStart(vel, vcs, n - 1), vcs[n - 1])
  }

  /** A cold start: after an `init` without warm starting, `warmStart` leaves
      every velocity as it was. */
  lemma ColdInitWarmStartIdle(s: Solver, def: SolverDef)
    requires Shaped(s.vcs, s.pcs)
    requires def.count <= |def.contacts|
    requires forall i :: 0 <= i < def.count ==> InitReady(def.contacts[i])
    requires !def.step.warmStarting
    requires forall i :: 0 <= i < def.count ==>
               def.contacts[i].bodyA.islandIndex < |def.velocities|
               && def.contacts[i].bodyB.islandIndex < |def.velocities|
               && def.contacts[i].bodyA.islandIndex != def.contacts[i].bodyB.islandIndex
    ensures var r := Init(s, def);
            AllAct(r.vcs, r.count, |r.velocities|)
            && WarmStart(r.velocities, r.vcs, r.count) == r.velocities
  {
    var r := Init(s, def);
    forall i | 0 <= i < def.count
      ensures Acts(r.vcs[i], |r.velocities|) && Cold(r.vcs[i], r.vcs[i].pointCount)
    {
      forall j | 0 <= j < r.vcs[i].pointCount
        ensures r.vcs[i].points[j].normalImpulse == 0.0 && r.vcs[i].points[j].tangentImpulse == 0.0
      {
        InitSeedsPoint(s, def, i, j);
      }
    }
  }

  /** The transform of a body from its centre of mass, angle and local centre. */
  function BodyTransform(kit: MathKit, pos: Position, localCenter: Vec2): Transform {
    var q := RotOf(kit, pos.a);
    Transform(Sub(pos.c, RotMul(q, localCenter)), q)
  }

  /** Velocity of B's point relative to A's: `vB + wB x rB - vA - wA x rA`. */
  function RelativeVelocity(p: BodyPair, rA: Vec2, rB: Vec2): Vec2 {
    Sub(Sub(Add(p.vB, CrossSV(p.wB, rB)), p.vA), CrossSV(p.wA, rA))
  }

  /** The approach speed along `n` in terms of the two bodies' motion. */
  lemma DotRelativeVelocity(p: BodyPair, rA: Vec2, rB: Vec2, n: Vec2)
    ensures Dot(n, RelativeVelocity(p, rA, rB))
            == Dot(n, p.vB) + p.wB * Cross(rB, n) - Dot(n, p.vA) - p.wA * Cross(rA, n)
  {
  }

  /** An impulse `j n` at lever arms `rA`, `rB` changes the approach speed
      along `n` by `j` times the inverse effective mass along `n` (for a unit
      `n`): this is what the effective mass is for. */
  lemma ImpulseChangesApproach(p: BodyPair, mA: real, iA: real, mB: real, iB: real,
                               rA: Vec2, rB: Vec2, j: real, n: Vec2)
    requires Dot(n, n) == 1.0
    ensures Dot(n, RelativeVelocity(ApplyImpulse(p, mA, iA, mB, iB, rA, rB, Scale(j, n)), rA, rB))
            == Dot(n, RelativeVelocity(p, rA, rB)) + j * InvMassAlong(mA, mB, iA, iB, rA, rB, n)
  {
    var q := ApplyImpulse(p, mA, iA, mB, iB, rA, rB, Scale(j, n));
    var rnA, rnB := Cross(rA, n), Cross(rB, n);
    DotRelativeVelocity(p, rA, rB, n);
    DotRelativeVelocity(q, rA, rB, n);
    LinearApproach(p, mA, iA, mB, iB, rA, rB, j, n);
    AngularApproach(p, mA, iA, mB, iB, rA, rB, j, n);
    InvMassAlongTerms(mA, mB, iA, iB, rA, rB, n);
    Distribute(j, mA + mB, iA * rnA * rnA + iB * rnB * rnB);
  }

  /** The linear part of the change in approach speed. */
  lemma LinearApproach(p: BodyPair, mA: real, iA: real, mB: real, iB: real,
                       rA: Vec2, rB: Vec2, j: real, n: Vec2)
    requires Dot(n, n) == 1.0
    ensures var q := ApplyImpulse(p, mA, iA, mB, iB, rA, rB, Scale(j, n));
            Dot(n, q.vB) - Dot(n, q.vA) == Dot(n, p.vB) - Dot(n, p.vA) + j * (mA + mB)
  {
    var q := ApplyImpulse(p, mA, iA, mB, iB, rA, rB, Scale(j, n));
    ScaleScale(mB, j, n);
    ScaleScale(mA, j, n);
    assert q.vB == Add(p.vB, Scale(mB * j, n));
    assert q.vA == Sub(p.vA, Scale(mA * j, n));
    DotScale(mB * j, n, n);
    DotScale(mA * j, n, n);
  }

  /** The angular part of the change in approach speed. */
  lemma AngularApproach(p: BodyPair, mA: real, iA: real, mB: real, iB: real,
                        rA: Vec2, rB: Vec2, j: real, n: Vec2)
    ensures var q := ApplyImpulse(p, mA, iA, mB, iB, rA, rB, Scale(j, n));
            var rnA, rnB := Cross(rA, n), Cross(rB, n);
            q.wB * rnB - q.wA * rnA == p.wB * rnB - p.wA * rnA + j * (iA * rnA * rnA + iB * rnB * rnB)
  {
    var rnA, rnB := Cross(rA, n), Cross(rB, n);
    CrossScale(rA, j, n);
    CrossScale(rB, j, n);
    AngularTerm(p.wB, iB, j, rnB);
    AngularTermBack(p.wA, iA, j, rnA);
  }

  lemma AngularTerm(w: real, i: real, j: real, rn: real)
    ensures (w + i * (j * rn)) * rn == w * rn + j * (i * rn * rn)
  {
  }

  lemma AngularTermBack(w: real, i: real, j: real, rn: real)
    ensures (w - i * (j * rn)) * rn == w * rn - j * (i * rn * rn)
  {
  }

  lemma Distribute(j: real, a: real, b: real)
    ensures j * (a + b) == j * a + j * b
  {
  }

  /** Inverse effective mass along `dir` for lever arms `rA`, `rB`. */
  function InvMassAlong(mA: real, mB: real, iA: real, iB: real, rA: Vec2, rB: Vec2, dir: Vec2): (k: real)
    ensures mA >= 0.0 && mB >= 0.0 && iA >= 0.0 && iB >= 0.0 ==> k >= mA + mB
  {
    var rnA := Cross(rA, dir);
    var rnB := Cross(rB, dir);
    assert rnA * rnA >= 0.0 && rnB * rnB >= 0.0;
    assert iA >= 0.0 && iB >= 0.0 ==> iA * rnA * rnA >= 0.0 && iB * rnB * rnB >= 0.0 by {
      if iA >= 0.0 && iB >= 0.0 {
        assert iA * rnA * rnA == iA * (rnA * rnA);
        assert iB * rnB * rnB == iB * (rnB * rnB);
      }
    }
    mA + mB + iA * rnA * rnA + iB * rnB * rnB
  }

  /** The effective-mass denominator, spelled out. */
  lemma InvMassAlongTerms(mA: real, mB: real, iA: real, iB: real, rA: Vec2, rB: Vec2, dir: Vec2)
    ensures InvMassAlong(mA, mB, iA, iB, rA, rB, dir)
            == mA + mB + iA * Cross(rA, dir) * Cross(rA, dir) + iB * Cross(rB, dir) * Cross(rB, dir)
  {
  }

  /** `m` is the guarded inverse of `k`: its reciprocal when `k > 0`, else 0. */
  predicate Inverts(m: real, k: real) {
    (k > 0.0 ==> m * k == 1.0) && (k <= 0.0 ==> m == 0.0)
  }

  /** `k > 0 ? 1 / k : 0`. */
  function EffectiveMass(k: real): (m: real)
    ensures Inverts(m, k)
    ensures m >= 0.0 && (m > 0.0 <==> k > 0.0)
  {
    if k > 0.0 then 1.0 / k else 0.0
  }

  /** `bias` is the restitution bias for approach speed `vRel`: `-e vRel` when
      the bodies approach faster than the threshold, 0 otherwise. */
  predicate BiasFor(bias: real, vRel: real, restitution: real) {
    if vRel < -Settings.velocityThreshold then bias == -restitution * vRel else bias == 0.0
  }

  function RestitutionBias(vRel: real, restitution: real): (bias: real)
    ensures BiasFor(bias, vRel, restitution)
    ensures restitution >= 0.0 ==> bias >= 0.0
  {
    if vRel < -Settings.velocityThreshold then
      assert restitution >= 0.0 ==> -restitution * vRel >= 0.0 by {
        if restitution >= 0.0 {
          assert -vRel > 0.0;
          assert -restitution * vRel == restitution * (-vRel);
        }
      }
      -restitution * vRel
    else 0.0
  }

  /** The per-point preparation: lever arms from the world point, guarded
      normal and tangent masses, and the restitution bias. */
  function PreparePoint(vp: VelocityPoint, worldPoint: Vec2, cA: Vec2, cB: Vec2, p: BodyPair, normal: Vec2,
                        mA: real, mB: real, iA: real, iB: real, restitution: real): VelocityPoint
  {
    var rA := Sub(worldPoint, cA);
    var rB := Sub(worldPoint, cB);
    vp.(rA := rA, rB := rB,
        normalMass := EffectiveMass(InvMassAlong(mA, mB, iA, iB, rA, rB, normal)),
        tangentMass := EffectiveMass(InvMassAlong(mA, mB, iA, iB, rA, rB, Tangent(normal))),
        velocityBias := RestitutionBias(Dot(normal, RelativeVelocity(p, rA, rB)), restitution))
  }

  /** What a prepared point satisfies, in terms of its own lever arms: its
      masses invert the inverse effective masses along the normal and the
      tangent, its bias is the restitution bias, and its impulses are kept. */
  predicate PointPrepared(r: VelocityPoint, vp: VelocityPoint, normal: Vec2, p: BodyPair,
                          mA: real, mB: real, iA: real, iB: real, restitution: real) {
    r.normalImpulse == vp.normalImpulse && r.tangentImpulse == vp.tangentImpulse
    && Inverts(r.normalMass, InvMassAlong(mA, mB, iA, iB, r.rA, r.rB, normal))
    && Inverts(r.tangentMass, InvMassAlong(mA, mB, iA, iB, r.rA, r.rB, Tangent(normal)))
    && BiasFor(r.velocityBias, Dot(normal, RelativeVelocity(p, r.rA, r.rB)), restitution)
  }

  /** The coupling term of the two-point block matrix. */
  function Coupling(vc: VelocityConstraint): real
    requires |vc.points| == Settings.maxManifoldPoints
  {
    var n := vc.normal;
    var rn1A := Cross(vc.points[0].rA, n);
    var rn1B := Cross(vc.points[0].rB, n);
    var rn2A := Cross(vc.points[1].rA, n);
    var rn2B := Cross(vc.points[1].rB, n);
    vc.invMassA + vc.invMassB + vc.invIA * rn1A * rn2A + vc.invIB * rn1B * rn2B
  }

  /** The diagonal entry of the block matrix for point `j`. */
  function Diagonal(vc: VelocityConstraint, j: nat): real
    requires j < |vc.points|
  {
    InvMassAlong(vc.invMassA, vc.invMassB, vc.invIA, vc.invIB, vc.points[j].rA, vc.points[j].rB, vc.normal)
  }

  /** The block matrix `K` of a two-point constraint. */
  function BlockMatrix(vc: VelocityConstraint): Mat22
    requires |vc.points| == Settings.maxManifoldPoints
  {
    Mat22(Vec2(Diagonal(vc, 0), Coupling(vc)), Vec2(Coupling(vc), Diagonal(vc, 1)))
  }

  /** The condition-number test `k11^2 < 100 (k11 k22 - k12^2)`. */
  predicate WellConditioned(K: Mat22) {
    K.ex.x * K.ex.x < k_maxConditionNumber * Det(K)
  }

  /** A well-conditioned matrix has a positive determinant, so it is invertible. */
  lemma WellConditionedInvertible(K: Mat22)
    requires WellConditioned(K)
    ensures Det(K) > 0.0
    ensures IsIdentity(MatProduct(K, Invert(K)))
  {
    assert K.ex.x * K.ex.x >= 0.0;
  }

  lemma SymmetricDet(a: real, c: real, b: real)
    ensures Det(Mat22(Vec2(a, c), Vec2(c, b))) == a * b - c * c
  {
  }

  /** The block preparation: a well-conditioned two-point constraint stores `K`
      and its inverse; an ill-conditioned one drops to a single point; other
      constraints are left alone. */
  function PrepareBlock(vc: VelocityConstraint): (r: VelocityConstraint)
    requires |vc.points| == Settings.maxManifoldPoints
    ensures vc.pointCount == 2 && WellConditioned(BlockMatrix(vc)) ==>
              r == vc.(K := BlockMatrix(vc), normalMass := r.normalMass)
              && IsIdentity(MatProduct(r.K, r.normalMass))
    ensures vc.pointCount == 2 && !WellConditioned(BlockMatrix(vc)) ==> r == vc.(pointCount := 1)
    ensures vc.pointCount != 2 ==> r == vc
    ensures r.normal == vc.normal && r.points == vc.points
  {
    if vc.pointCount == 2 then
      var K := BlockMatrix(vc);
      if WellConditioned(K) then
        WellConditionedInvertible(K);
        vc.(K := K, normalMass := Invert(K))
      else vc.(pointCount := 1)
    else vc
  }

  /** What `initializeVelocityConstraints` needs of constraint `i`: its bodies,
      its position record and a manifold with points. */
  predicate PrepReady(s: Solver, i: nat) {
    i < |s.vcs| && i < |s.pcs|
    && Acts(s.vcs[i], |s.velocities|)
    && s.vcs[i].indexA < |s.positions| && s.vcs[i].indexB < |s.positions|
    && s.vcs[i].contactIndex < |s.contacts|
    && ValidManifold(s.contacts[s.vcs[i].contactIndex].manifold)
    && s.contacts[s.vcs[i].contactIndex].manifold.pointCount > 0
  }

  /** Result of preparing one constraint: the new record and the reused world
      manifold object. */
  datatype Prepared = Prepared(vc: VelocityConstraint, wm: WorldManifold)

  /** The world manifold of constraint `i`: its contact's manifold placed by
      the two bodies' transforms (built from the solver positions and the
      local centres) and the shape radii, written into the reused `wm`. */
  function ContactWorld(kit: MathKit, s: Solver, i: nat, wm: WorldManifold): WorldManifold
    requires PrepReady(s, i) && |wm.points| == Settings.maxManifoldPoints
  {
    var vc := s.vcs[i];
    var pc := s.pcs[i];
    Initialize(kit, wm, s.contacts[vc.contactIndex].manifold,
               BodyTransform(kit, s.positions[vc.indexA], pc.localCenterA), pc.radiusA,
               BodyTransform(kit, s.positions[vc.indexB], pc.localCenterB), pc.radiusB)
  }

  /** The geometry of a prepared constraint `r` against the world manifold
      `w`: the normal is the world normal and each active point's lever arms
      run from the bodies' centres of mass to its world point. */
  predicate ContactGeometry(s: Solver, i: nat, w: WorldManifold, r: VelocityConstraint)
    requires PrepReady(s, i) && |w.points| == Settings.maxManifoldPoints
  {
    var vc := s.vcs[i];
    |r.points| == |vc.points| && r.normal == w.normal
    && forall j :: 0 <= j < vc.pointCount ==>
         r.points[j].rA == Sub(w.points[j], s.positions[vc.indexA].c)
         && r.points[j].rB == Sub(w.points[j], s.positions[vc.indexB].c)
  }

  /** `initializeVelocityConstraints` for constraint `i`. The world manifold is
      a single object reused across constraints, so it is threaded through. */
  function PrepareContact(kit: MathKit, s: Solver, i: nat, wm: WorldManifold): (r: Prepared)
    requires PrepReady(s, i) && |wm.points| == Settings.maxManifoldPoints
    ensures r.wm == ContactWorld(kit, s, i, wm) && |r.wm.points| == Settings.maxManifoldPoints
    ensures ContactPrepared(s, i, r.vc)
    ensures ContactGeometry(s, i, r.wm, r.vc)
  {
    var vc := s.vcs[i];
    var a := vc.indexA;
    var b := vc.indexB;
    var wm' := ContactWorld(kit, s, i, wm);
    var normal := wm'.normal;
    var p := PairOf(s.velocities, a, b);
    var points := PreparePoints(vc, wm'.points, s.positions[a].c, s.positions[b].c, p, normal);
    var vc1 := vc.(normal := normal, points := points);
    var r := PrepareBlock(vc1);
    assert r.points == points && r.normal == normal;
    assert vc1 == vc.(normal := r.normal, points := r.points);
    Prepared(r, wm')
  }

  /** The per-point loop of `initializeVelocityConstraints`: active points are
      prepared against the world points, the rest are kept. */
  function PreparePoints(vc: VelocityConstraint, worldPoints: seq<Vec2>, cA: Vec2, cB: Vec2,
                         p: BodyPair, normal: Vec2): (r: seq<VelocityPoint>)
    requires vc.pointCount <= |vc.points| && |vc.points| <= |worldPoints|
    ensures |r| == |vc.points|
    ensures forall j :: 0 <= j < vc.pointCount ==>
              PointPrepared(r[j], vc.points[j], normal, p, vc.invMassA, vc.invMassB, vc.invIA, vc.invIB, vc.restitution)
    ensures forall j :: 0 <= j < vc.pointCount ==>
              r[j].rA == Sub(worldPoints[j], cA) && r[j].rB == Sub(worldPoints[j], cB)
    ensures forall j :: vc.pointCount <= j < |vc.points| ==> r[j] == vc.points[j]
  {
    seq(|vc.points|, j requires 0 <= j < |vc.points| =>
      if j < vc.pointCount
      then PreparePoint(vc.points[j], worldPoints[j], cA, cB, p, normal,
                        vc.invMassA, vc.invMassB, vc.invIA, vc.invIB, vc.restitution)
      else vc.points[j])
  }

  /** The contract of preparing constraint `i` into `r`: every active point is
      prepared for the new normal, the other points and all body data are kept,
      and the block matrix is stored and inverted exactly when it is well
      conditioned; otherwise a two-point constraint falls back to one point. */
  predicate ContactPrepared(s: Solver, i: nat, r: VelocityConstraint)
    requires i < |s.vcs| && Acts(s.vcs[i], |s.velocities|)
  {
    var vc := s.vcs[i];
    var p := PairOf(s.velocities, vc.indexA, vc.indexB);
    var mid := vc.(normal := r.normal, points := r.points);
    |r.points| == |vc.points|
    && (forall j :: 0 <= j < vc.pointCount ==>
          PointPrepared(r.points[j], vc.points[j], r.normal, p,
                        vc.invMassA, vc.invMassB, vc.invIA, vc.invIB, vc.restitution))
    && (forall j :: vc.pointCount <= j < |vc.points| ==> r.points[j] == vc.points[j])
    && (vc.pointCount == 2 && WellConditioned(BlockMatrix(mid)) ==>
          r == mid.(K := BlockMatrix(mid), normalMass := r.normalMass)
          && IsIdentity(MatProduct(r.K, r.normalMass)))
    && (vc.pointCount == 2 && !WellConditioned(BlockMatrix(mid)) ==> r == mid.(pointCount := 1))
    && (vc.pointCount != 2 ==> r == mid)
  }

  /** Result of the whole pass. */
  datatype PassResult = PassResult(vcs: seq<VelocityConstraint>, wm: WorldManifold)

  /** `initializeVelocityConstraints` over the first `n` constraints. */
  function InitializeVelocityConstraints(kit: MathKit, s: Solver, wm: WorldManifold, n: nat): (r: PassResult)
    requires n <= |s.vcs| && forall i :: 0 <= i < n ==> PrepReady(s, i)
    requires |wm.points| == Settings.maxManifoldPoints
    ensures |r.vcs| == |s.vcs| && |r.wm.points| == Settings.maxManifoldPoints
    ensures forall i :: 0 <= i < n ==> PrepReady(s, i) && ContactPrepared(s, i, r.vcs[i])
    ensures r.wm == WorldBefore(kit, s, wm, n)
    ensures forall i :: 0 <= i < n ==> SawWorld(kit, s, wm, i, r.vcs[i])
    ensures forall i :: n <= i < |s.vcs| ==> r.vcs[i] == s.vcs[i]
    decreases n
  {
    if n == 0 then PassResult(s.vcs, wm)
    else
      var prev := InitializeVelocityConstraints(kit, s, wm, n - 1);
      assert PrepReady(s, n - 1);
      var one := PrepareContact(kit, s, n - 1, prev.wm);
      PassResult(prev.vcs[n - 1 := one.vc], one.wm)
  }

  /** The reused world manifold as constraint `i` finds it: `wm` placed in
      turn by constraints `0` to `i - 1`. */
  /** Constraint `i`, prepared as `r`, took its geometry from the world
      manifold as it stood after constraints `0 .. i-1` had been prepared. */
  predicate SawWorld(kit: MathKit, s: Solver, wm: WorldManifold, i: nat, r: VelocityConstraint)
    requires i < |s.vcs| && forall k :: 0 <= k <= i ==> PrepReady(s, k)
    requires |wm.points| == Settings.maxManifoldPoints
  {
    ContactGeometry(s, i, ContactWorld(kit, s, i, WorldBefore(kit, s, wm, i)), r)
  }

  function WorldBefore(kit: MathKit, s: Solver, wm: WorldManifold, i: nat): (w: WorldManifold)
    requires i <= |s.vcs| && forall k :: 0 <= k < i ==> PrepReady(s, k)
    requires |wm.points| == Settings.maxManifoldPoints
    ensures |w.points| == Settings.maxManifoldPoints
    decreases i
  {
    if i == 0 then wm
    else ContactWorld(kit, s, i - 1, WorldBefore(kit, s, wm, i - 1))
  }

  /** The reused world manifold does not leak into constraint `i`'s normal,
      nor into the points its manifold rewrites: all of them for face
      manifolds, point `0` for circles. */
  lemma ContactWorldFresh(kit: MathKit, s: Solver, i: nat, w1: WorldManifold, w2: WorldManifold)
    requires PrepReady(s, i)
    requires |w1.points| == Settings.maxManifoldPoints && |w2.points| == Settings.maxManifoldPoints
    ensures ContactWorld(kit, s, i, w1).normal == ContactWorld(kit, s, i, w2).normal
    ensures ContactWorld(kit, s, i, w1).points[0] == ContactWorld(kit, s, i, w2).points[0]
    ensures s.contacts[s.vcs[i].contactIndex].manifold.kind != Circles ==>
              forall j :: 0 <= j < s.contacts[s.vcs[i].contactIndex].manifold.pointCount ==>
                ContactWorld(kit, s, i, w1).points[j] == ContactWorld(kit, s, i, w2).points[j]
  {
  }

  /** After preparation, a two-point constraint that kept both points is ready
      for the block solver: `normalMass` inverts `K`, and each point's own
      normal mass inverts its diagonal entry (for non-negative inverse masses). */
  lemma PreparedBlockConsistent(s: Solver, i: nat, r: VelocityConstraint)
    requires i < |s.vcs| && Acts(s.vcs[i], |s.velocities|) && ContactPrepared(s, i, r)
    requires s.vcs[i].pointCount == 2 && r.pointCount == 2
    requires s.vcs[i].invMassA >= 0.0 && s.vcs[i].invMassB >= 0.0
    requires s.vcs[i].invIA >= 0.0 && s.vcs[i].invIB >= 0.0
    ensures IsIdentity(MatProduct(r.K, r.normalMass))
    ensures r.points[0].normalMass * r.K.ex.x == 1.0
    ensures r.points[1].normalMass * r.K.ey.y == 1.0
  {
    var vc := s.vcs[i];
    var mid := vc.(normal := r.normal, points := r.points);
    var K := BlockMatrix(mid);
    if !WellConditioned(K) {
      assert false;
    }
    WellConditionedInvertible(K);
    var k11, k22, k12 := Diagonal(mid, 0), Diagonal(mid, 1), Coupling(mid);
    assert K == Mat22(Vec2(k11, k12), Vec2(k12, k22));
    assert k11 >= 0.0 && k22 >= 0.0;
    SymmetricDet(k11, k12, k22);
    assert k12 * k12 >= 0.0;
    assert PointPrepared(r.points[0], vc.points[0], r.normal, PairOf(s.velocities, vc.indexA, vc.indexB),
                         vc.invMassA, vc.invMassB, vc.invIA, vc.invIB, vc.restitution);
    assert PointPrepared(r.points[1], vc.points[1], r.normal, PairOf(s.velocities, vc.indexA, vc.indexB),
                         vc.invMassA, vc.invMassB, vc.invIA, vc.invIB, vc.restitution);
  }
}
