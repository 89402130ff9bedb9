/** The sequential-impulse pass `solveVelocityConstraints`
    (Dynamics/Contacts/ContactSolver.cs): for each constraint, first the
    friction impulses, clamped to the Coulomb cone of the current normal
    impulse, then the normal impulses, clamped to be non-negative (one point)
    or chosen by the block solver (two points). */
module ContactSolve {
  import opened Geometry
  import opened SolverData
  import opened ContactConstraints
  import opened ContactVelocity
  import opened ContactBlock

  /** One body pair and one point after a step. */
  datatype PointStep = PointStep(p: BodyPair, vp: VelocityPoint)

  /** A tangent impulse inside the friction cone of a normal impulse (when
      that cone is non-empty). */
  predicate InCone(tangentImpulse: real, friction: real, normalImpulse: real) {
    friction * normalImpulse >= 0.0 ==>
      -(friction * normalImpulse) <= tangentImpulse <= friction * normalImpulse
  }

  /** The friction step at one point. The accumulated tangent impulse is pushed
      into `[-friction * normalImpulse, friction * normalImpulse]`, and exactly
      the change of the accumulated impulse is applied along the tangent. */
  function TangentStep(p: BodyPair, vp: VelocityPoint, vc: VelocityConstraint): (r: PointStep)
    ensures InCone(r.vp.tangentImpulse, vc.friction, vp.normalImpulse)
    ensures r.vp.tangentImpulse == FrictionImpulse(p, vp, vc)
    ensures r.vp == vp.(tangentImpulse := r.vp.tangentImpulse)
    ensures r.p == ApplyImpulse(p, vc.invMassA, vc.invIA, vc.invMassB, vc.invIB, vp.rA, vp.rB,
                                Scale(r.vp.tangentImpulse - vp.tangentImpulse, Tangent(vc.normal)))
  {
    var tangent := Tangent(vc.normal);
    var newImpulse := FrictionImpulse(p, vp, vc);
    var applied := newImpulse - vp.tangentImpulse;
    PointStep(ApplyImpulse(p, vc.invMassA, vc.invIA, vc.invMassB, vc.invIB, vp.rA, vp.rB, Scale(applied, tangent)),
              vp.(tangentImpulse := newImpulse))
  }

  /** The new accumulated tangent impulse: the old one plus
      `lambda = -tangentMass (vt - tangentSpeed)`, clamped to the friction
      cone. */
  function FrictionImpulse(p: BodyPair, vp: VelocityPoint, vc: VelocityConstraint): (t: real)
    ensures InCone(t, vc.friction, vp.normalImpulse)
  {
    Clamp(FreeFriction(p, vp, vc), -(vc.friction * vp.normalImpulse), vc.friction * vp.normalImpulse)
  }

  /** The accumulated tangent impulse before clamping: the old one plus
      `-tangentMass (vt - tangentSpeed)`. */
  function FreeFriction(p: BodyPair, vp: VelocityPoint, vc: VelocityConstraint): real {
    vp.tangentImpulse + vp.tangentMass * -(Dot(RelativeVelocity(p, vp.rA, vp.rB), Tangent(vc.normal)) - vc.tangentSpeed)
  }

  /** Inside the friction cone the step keeps the unclamped impulse; beyond
      either edge of a non-empty cone it stops at that edge. */
  lemma FrictionImpulseClamps(p: BodyPair, vp: VelocityPoint, vc: VelocityConstraint)
    ensures var free, m := FreeFriction(p, vp, vc), vc.friction * vp.normalImpulse;
            (-m <= free <= m ==> FrictionImpulse(p, vp, vc) == free)
            && (m >= 0.0 && free > m ==> FrictionImpulse(p, vp, vc) == m)
            && (m >= 0.0 && free < -m ==> FrictionImpulse(p, vp, vc) == -m)
  {
  }

  /** The one-point normal step: the accumulated impulse becomes
      `max(0, old + lambda)` and exactly its change is applied along the normal. */
  function NormalStep(p: BodyPair, vp: VelocityPoint, vc: VelocityConstraint): (r: PointStep)
    ensures r.vp.normalImpulse >= 0.0
    ensures var lambda := -vp.normalMass * (Dot(RelativeVelocity(p, vp.rA, vp.rB), vc.normal) - vp.velocityBias);
            r.vp.normalImpulse == Max(vp.normalImpulse + lambda, 0.0)
    ensures r.vp == vp.(normalImpulse := r.vp.normalImpulse)
    ensures r.p == ApplyImpulse(p, vc.invMassA, vc.invIA, vc.invMassB, vc.invIB, vp.rA, vp.rB,
                                Scale(r.vp.normalImpulse - vp.normalImpulse, vc.normal))
  {
    var dv := RelativeVelocity(p, vp.rA, vp.rB);
    var vn := Dot(dv, vc.normal);
    var lambda := -vp.normalMass * (vn - vp.velocityBias);
    var a := vp.normalImpulse + lambda;
    var newImpulse := if a > 0.0 then a else 0.0;
    var applied := newImpulse - vp.normalImpulse;
    PointStep(ApplyImpulse(p, vc.invMassA, vc.invIA, vc.invMassB, vc.invIB, vp.rA, vp.rB, Scale(applied, vc.normal)),
              vp.(normalImpulse := newImpulse))
  }

  /** The friction steps at points `0 .. n-1`, in order. */
  function TangentPass(p: BodyPair, vc: VelocityConstraint, n: nat): (r: Step)
    requires n <= |vc.points|
    ensures |r.points| == |vc.points|
    ensures forall j :: 0 <= j < n ==>
              r.points[j] == vc.points[j].(tangentImpulse := r.points[j].tangentImpulse)
              && InCone(r.points[j].tangentImpulse, vc.friction, vc.points[j].normalImpulse)
    ensures forall j :: n <= j < |vc.points| ==> r.points[j] == vc.points[j]
    ensures WeightedMomentum(r.p, vc.invMassA, vc.invMassB) == WeightedMomentum(p, vc.invMassA, vc.invMassB)
    decreases n
  {
    if n == 0 then Step(p, vc.points)
    else
      var prev := TangentPass(p, vc, n - 1);
      assert prev.points[n - 1] == vc.points[n - 1];
      var t := TangentStep(prev.p, prev.points[n - 1], vc);
      ApplyImpulseConservesMomentum(prev.p, vc.invMassA, vc.invIA, vc.invMassB, vc.invIB,
                                    vc.points[n - 1].rA, vc.points[n - 1].rB,
                                    Scale(t.vp.tangentImpulse - vc.points[n - 1].tangentImpulse, Tangent(vc.normal)));
      var pts := prev.points[n - 1 := t.vp];
      assert pts[n - 1] == vc.points[n - 1].(tangentImpulse := pts[n - 1].tangentImpulse);
      assert forall j :: 0 <= j < n - 1 ==> pts[j] == prev.points[j];
      Step(t.p, pts)
  }

  /** A body pair with the points of one constraint. */
  datatype Step = Step(p: BodyPair, points: seq<VelocityPoint>)

  /** The two-point normal step. The right-hand side `b'` accounts for the
      impulses already accumulated; when the block solver accepts a pattern the
      difference between its impulses and the old ones is applied, otherwise
      nothing changes. */
  function BlockStep(p: BodyPair, vc: VelocityConstraint, points: seq<VelocityPoint>): (r: Step)
    requires |points| == 2
    ensures |r.points| == 2
    ensures var o := BlockSolve(BlockRhs(p, vc, points), vc.K, vc.normalMass,
                                points[0].normalMass, points[1].normalMass);
            (o.Accepted? ==> r.points[0] == points[0].(normalImpulse := o.x.x)
                             && r.points[1] == points[1].(normalImpulse := o.x.y)
                             && r.p == ApplyPointImpulses(p, vc, points[0], points[1],
                                                          Scale(o.x.x - points[0].normalImpulse, vc.normal),
                                                          Scale(o.x.y - points[1].normalImpulse, vc.normal)))
            && (o.Rejected? ==> r == Step(p, points))
    ensures forall j :: 0 <= j < 2 ==> r.points[j] == points[j].(normalImpulse := r.points[j].normalImpulse)
    ensures points[0].normalImpulse >= 0.0 && points[1].normalImpulse >= 0.0 ==>
              r.points[0].normalImpulse >= 0.0 && r.points[1].normalImpulse >= 0.0
    ensures WeightedMomentum(r.p, vc.invMassA, vc.invMassB) == WeightedMomentum(p, vc.invMassA, vc.invMassB)
  {
    var cp1 := points[0];
    var cp2 := points[1];
    var a := Vec2(cp1.normalImpulse, cp2.normalImpulse);
    var o := BlockSolve(BlockRhs(p, vc, points), vc.K, vc.normalMass, cp1.normalMass, cp2.normalMass);
    match o
    case Rejected => Step(p, points)
    case Accepted(_, x) =>
      var d := Sub(x, a);
      var P1 := Scale(d.x, vc.normal);
      var P2 := Scale(d.y, vc.normal);
      Step(ApplyPointImpulses(p, vc, cp1, cp2, P1, P2), [cp1.(normalImpulse := x.x), cp2.(normalImpulse := x.y)])
  }

  /** The two point impulses `P1` and `P2` applied together: the linear
      velocities move by their sum, the angular velocities by the sum of their
      torques about each point's lever arms. The weighted linear momentum is kept. */
  function ApplyPointImpulses(p: BodyPair, vc: VelocityConstraint, cp1: VelocityPoint, cp2: VelocityPoint,
                              P1: Vec2, P2: Vec2): (r: BodyPair)
    ensures WeightedMomentum(r, vc.invMassA, vc.invMassB) == WeightedMomentum(p, vc.invMassA, vc.invMassB)
  {
    var P := Add(P1, P2);
    var r := BodyPair(Sub(p.vA, Scale(vc.invMassA, P)),
                      p.wA - vc.invIA * (Cross(cp1.rA, P1) + Cross(cp2.rA, P2)),
                      Add(p.vB, Scale(vc.invMassB, P)),
                      p.wB + vc.invIB * (Cross(cp1.rB, P1) + Cross(cp2.rB, P2)));
    assert vc.invMassB * (vc.invMassA * P.x) == vc.invMassA * (vc.invMassB * P.x);
    assert vc.invMassB * (vc.invMassA * P.y) == vc.invMassA * (vc.invMassB * P.y);
    r
  }

  /** `b' = (vn - velocityBias) - K a` for the block solver. */
  function BlockRhs(p: BodyPair, vc: VelocityConstraint, points: seq<VelocityPoint>): Vec2
    requires |points| == 2
  {
    var cp1 := points[0];
    var cp2 := points[1];
    var a := Vec2(cp1.normalImpulse, cp2.normalImpulse);
    var vn1 := Dot(RelativeVelocity(p, cp1.rA, cp1.rB), vc.normal);
    var vn2 := Dot(RelativeVelocity(p, cp2.rA, cp2.rB), vc.normal);
    Sub(Vec2(vn1 - cp1.velocityBias, vn2 - cp2.velocityBias), MatMul(vc.K, a))
  }

  /** What the pass needs of a constraint: its bodies, one or two points, and
      (for the block solver) non-negative accumulated normal impulses. */
  predicate SolveReady(vc: VelocityConstraint, bodies: nat) {
    Acts(vc, bodies) && 1 <= vc.pointCount <= 2
    && (vc.pointCount == 2 ==> vc.points[0].normalImpulse >= 0.0 && vc.points[1].normalImpulse >= 0.0)
  }

  /** Every active point of the constraint has a non-negative normal impulse. */
  predicate Pushing(vc: VelocityConstraint)
    requires vc.pointCount <= |vc.points|
  {
    forall j :: 0 <= j < vc.pointCount ==> vc.points[j].normalImpulse >= 0.0
  }

  /** The normal impulses of one constraint after its friction step: the
      one-point clamp or the two-point block step. Only normal impulses change,
      and they end non-negative (for two points, given that they start so). */
  function NormalPass(p: BodyPair, vc: VelocityConstraint, points: seq<VelocityPoint>): (r: Step)
    requires |points| == 2 && 1 <= vc.pointCount <= 2
    requires vc.pointCount == 2 ==> points[0].normalImpulse >= 0.0 && points[1].normalImpulse >= 0.0
    ensures |r.points| == 2
    ensures forall j :: 0 <= j < 2 ==> r.points[j] == points[j].(normalImpulse := r.points[j].normalImpulse)
    ensures vc.pointCount == 1 ==> r.points[1] == points[1]
    ensures forall j :: 0 <= j < vc.pointCount ==> r.points[j].normalImpulse >= 0.0
    ensures WeightedMomentum(r.p, vc.invMassA, vc.invMassB) == WeightedMomentum(p, vc.invMassA, vc.invMassB)
  {
    if vc.pointCount == 1 then
      var s := NormalStep(p, points[0], vc);
      ApplyImpulseConservesMomentum(p, vc.invMassA, vc.invIA, vc.invMassB, vc.invIB,
                                    points[0].rA, points[0].rB,
                                    Scale(s.vp.normalImpulse - points[0].normalImpulse, vc.normal));
      Step(s.p, points[0 := s.vp])
    else BlockStep(p, vc, points)
  }

  /** Result of solving one constraint. */
  datatype Solved = Solved(vel: seq<Velocity>, vc: VelocityConstraint)

  /** `solveVelocityConstraints` for one constraint. Afterwards every active
      point pushes (non-negative normal impulse); each tangent impulse lies in
      the friction cone of the normal impulse it started the step with; only
      the impulses and the constraint's two bodies change, and the weighted
      linear momentum of the two bodies is kept. */
  function SolveContact(vel: seq<Velocity>, vc: VelocityConstraint): (r: Solved)
    requires SolveReady(vc, |vel|)
    ensures |r.vel| == |vel|
    ensures forall k :: 0 <= k < |vel| && k != vc.indexA && k != vc.indexB ==> r.vel[k] == vel[k]
    ensures r.vc == vc.(points := r.vc.points) && |r.vc.points| == |vc.points|
    ensures Pushing(r.vc)
    ensures forall j :: 0 <= j < vc.pointCount ==>
              InCone(r.vc.points[j].tangentImpulse, vc.friction, vc.points[j].normalImpulse)
    ensures WeightedMomentum(PairOf(r.vel, vc.indexA, vc.indexB), vc.invMassA, vc.invMassB)
            == WeightedMomentum(PairOf(vel, vc.indexA, vc.indexB), vc.invMassA, vc.invMassB)
  {
    var p := PairOf(vel, vc.indexA, vc.indexB);
    var t := TangentPass(p, vc, vc.pointCount);
    assert forall j :: 0 <= j < 2 ==> t.points[j].normalImpulse == vc.points[j].normalImpulse;
    var n := NormalPass(t.p, vc, t.points);
    var vel' := WriteBack(vel, vc.indexA, vc.indexB, n.p);
    assert PairOf(vel', vc.indexA, vc.indexB) == n.p;
    Solved(vel', vc.(points := n.points))
  }

  /** `b` is `a` with (possibly) new impulses at its points, and nothing else changed. */
  predicate PointsOnly(b: VelocityConstraint, a: VelocityConstraint) {
    b == a.(points := b.points) && |b.points| == |a.points|
  }

  /** Solving a ready constraint leaves it ready for the next iteration, with
      every active point pushing. */
  lemma SolveContactReady(vel: seq<Velocity>, vc: VelocityConstraint)
    requires SolveReady(vc, |vel|)
    ensures PointsOnly(SolveContact(vel, vc).vc, vc)
    ensures SolveReady(SolveContact(vel, vc).vc, |SolveContact(vel, vc).vel|)
    ensures Pushing(SolveContact(vel, vc).vc)
  {
    var one := SolveContact(vel, vc);
    assert one.vc.pointCount == vc.pointCount;
    assert Pushing(one.vc);
  }

  /** `solveVelocityConstraints` over the first `n` constraints. Requiring the
      block solver's precondition of every constraint, the pass leaves every
      active point of every constraint with a non-negative normal impulse, so
      the precondition holds again for the next iteration. */
  function SolveVelocityConstraints(vel: seq<Velocity>, vcs: seq<VelocityConstraint>, n: nat): (r: SolvedAll)
    requires n <= |vcs| && forall i :: 0 <= i < n ==> SolveReady(vcs[i], |vel|)
    ensures |r.vel| == |vel| && |r.vcs| == |vcs|
    ensures forall i :: 0 <= i < n ==> PointsOnly(r.vcs[i], vcs[i]) && SolveReady(r.vcs[i], |r.vel|)
                                       && Pushing(r.vcs[i])
    ensures forall i :: n <= i < |vcs| ==> r.vcs[i] == vcs[i]
    decreases n
  {
    if n == 0 then SolvedAll(vel, vcs)
    else
      var prev := SolveVelocityConstraints(vel, vcs, n - 1);
      var one := SolveContact(prev.vel, prev.vcs[n - 1]);
      SolveContactReady(prev.vel, prev.vcs[n - 1]);
      SolvedJoins(vel, vcs, n, prev, one);
      SolvedAll(one.vel, prev.vcs[n - 1 := one.vc])
  }

  /** The outer loop's invariants survive solving one more constraint. */
  lemma SolvedJoins(vel: seq<Velocity>, vcs: seq<VelocityConstraint>, n: nat, prev: SolvedAll, one: Solved)
    requires 0 < n <= |vcs| && |prev.vel| == |vel| && |prev.vcs| == |vcs| && |one.vel| == |prev.vel|
    requires forall i :: 0 <= i < n - 1 ==> PointsOnly(prev.vcs[i], vcs[i]) && SolveReady(prev.vcs[i], |prev.vel|)
                                            && Pushing(prev.vcs[i])
    requires forall i :: n - 1 <= i < |vcs| ==> prev.vcs[i] == vcs[i]
    requires PointsOnly(one.vc, prev.vcs[n - 1]) && SolveReady(one.vc, |one.vel|) && Pushing(one.vc)
    ensures |prev.vcs[n - 1 := one.vc]| == |vcs|
    ensures forall i :: 0 <= i < n ==> PointsOnly(prev.vcs[n - 1 := one.vc][i], vcs[i])
                                       && SolveReady(prev.vcs[n - 1 := one.vc][i], |one.vel|)
                                       && Pushing(prev.vcs[n - 1 := one.vc][i])
    ensures forall i :: n <= i < |vcs| ==> prev.vcs[n - 1 := one.vc][i] == vcs[i]
  {
    var vcs' := prev.vcs[n - 1 := one.vc];
    assert forall i :: 0 <= i < n - 1 ==> vcs'[i] == prev.vcs[i];
  }

  datatype SolvedAll = SolvedAll(vel: seq<Velocity>, vcs: seq<VelocityConstraint>)
}
