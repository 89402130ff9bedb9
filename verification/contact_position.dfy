/** The position passes of the contact solver (Dynamics/Contacts/ContactSolver.cs):
    `PositionSolverManifold.initialize`, `solvePositionConstraints` and
    `solveTOIPositionConstraints`. Each point pushes the two bodies apart along
    the contact normal by a clamped Baumgarte correction of its separation; the
    pass reports whether the worst separation it saw is within tolerance. */
module ContactPosition {
  import opened Geometry
  import opened SolverData
  import opened Manifolds
  import opened WorldManifolds
  import opened ContactConstraints
  import opened ContactVelocity
  import Settings

  /** What `PositionSolverManifold.initialize` computes for one point. */
  datatype PointGeometry = PointGeometry(normal: Vec2, point: Vec2, separation: real)

  /** `PositionSolverManifold.initialize`. Circles: the (normalised) centre
      direction, the centres' midpoint and the centre distance less the radii.
      Faces: the reference face normal (pointing from A to B), the clip point
      and its height above the reference face less the radii. */
  function PositionManifold(kit: MathKit, pc: PositionConstraint, xfA: Transform, xfB: Transform,
                            index: nat): (r: PointGeometry)
    requires 0 < pc.pointCount && index < |pc.localPoints|
    ensures pc.kind != Circles ==>
              r.point == XfMul(if pc.kind == FaceA then xfB else xfA, pc.localPoints[index])
  {
    match pc.kind
    case Circles =>
      var pA := XfMul(xfA, pc.localPoint);
      var pB := XfMul(xfB, pc.localPoints[0]);
      var n := Normalize(kit, Sub(pB, pA)).v;
      PointGeometry(n, Midpoint(pA, pB), Dot(Sub(pB, pA), n) - pc.radiusA - pc.radiusB)
    case FaceA =>
      var n := RotMul(xfA.q, pc.localNormal);
      var plane := XfMul(xfA, pc.localPoint);
      var clip := XfMul(xfB, pc.localPoints[index]);
      PointGeometry(n, clip, Dot(Sub(clip, plane), n) - pc.radiusA - pc.radiusB)
    case FaceB =>
      var n := RotMul(xfB.q, pc.localNormal);
      var plane := XfMul(xfB, pc.localPoint);
      var clip := XfMul(xfA, pc.localPoints[index]);
      PointGeometry(Neg(n), clip, Dot(Sub(clip, plane), n) - pc.radiusA - pc.radiusB)
  }

  /** Circles, centres at least EPSILON apart, sound square root: the normal is
      the unit centre direction and the separation is the centre distance less
      both radii. */
  lemma CirclesSeparation(kit: MathKit, pc: PositionConstraint, xfA: Transform, xfB: Transform, index: nat)
    requires 0 < pc.pointCount && index < |pc.localPoints| && pc.kind == Circles
    requires SoundSqrt(kit)
    requires Length(kit, Sub(XfMul(xfB, pc.localPoints[0]), XfMul(xfA, pc.localPoint))) >= Settings.EPSILON
    ensures var r := PositionManifold(kit, pc, xfA, xfB, index);
            var d := Length(kit, Sub(XfMul(xfB, pc.localPoints[0]), XfMul(xfA, pc.localPoint)));
            LengthSquared(r.normal) == 1.0 && r.separation == d - pc.radiusA - pc.radiusB
  {
    var v := Sub(XfMul(xfB, pc.localPoints[0]), XfMul(xfA, pc.localPoint));
    var d := Length(kit, v);
    var n := Normalize(kit, v).v;
    NormalizeScalesBack(kit, v);
    DotScale(d, n, n);
    assert Dot(v, n) == d * Dot(n, n);
  }

  /** The position solver and the world manifold agree on a FACE_A point: the
      world point is the position solver's clip point moved back along the
      normal by the B radius plus half the separation. */
  lemma FaceAAgreesWithWorld(kit: MathKit, pc: PositionConstraint, wm: WorldManifold, m: Manifold,
                             xfA: Transform, xfB: Transform, i: nat)
    requires ValidManifold(m) && |wm.points| == Settings.maxManifoldPoints
    requires m.kind == FaceA && pc.kind == FaceA && i < m.pointCount
    requires 0 < pc.pointCount && i < |pc.localPoints|
    requires pc.localPoints[i] == m.points[i].localPoint
    requires pc.localNormal == m.localNormal && pc.localPoint == m.localPoint
    ensures var g := PositionManifold(kit, pc, xfA, xfB, i);
            var w := Initialize(kit, wm, m, xfA, pc.radiusA, xfB, pc.radiusB);
            w.normal == g.normal
            && w.points[i] == Add(g.point, Scale(-(g.separation / 2.0 + pc.radiusB), g.normal))
  {
  }

  /** The same for FACE_B, where the clip point is on A's side: the world point
      is it moved forward along the reported normal by the A radius plus half
      the separation. */
  lemma FaceBAgreesWithWorld(kit: MathKit, pc: PositionConstraint, wm: WorldManifold, m: Manifold,
                             xfA: Transform, xfB: Transform, i: nat)
    requires ValidManifold(m) && |wm.points| == Settings.maxManifoldPoints
    requires m.kind == FaceB && pc.kind == FaceB && i < m.pointCount
    requires 0 < pc.pointCount && i < |pc.localPoints|
    requires pc.localPoints[i] == m.points[i].localPoint
    requires pc.localNormal == m.localNormal && pc.localPoint == m.localPoint
    ensures var g := PositionManifold(kit, pc, xfA, xfB, i);
            var w := Initialize(kit, wm, m, xfA, pc.radiusA, xfB, pc.radiusB);
            w.normal == g.normal
            && w.points[i] == Add(g.point, Scale(g.separation / 2.0 + pc.radiusA, g.normal))
  {
    var n := RotMul(xfB.q, m.localNormal);
    var plane := XfMul(xfB, m.localPoint);
    var clip := XfMul(xfA, m.points[i].localPoint);
    var w := Initialize(kit, wm, m, xfA, pc.radiusA, xfB, pc.radiusB);
    assert w.points[i] == FacePoint(clip, plane, n, pc.radiusB, pc.radiusA);
    FacePointSeenFromA(clip, plane, n, pc.radiusA, pc.radiusB);
  }

  /** A FACE_B world point in terms of the separation and the reversed normal. */
  lemma FacePointSeenFromA(clip: Vec2, plane: Vec2, n: Vec2, radiusA: real, radiusB: real)
    ensures var sep := Dot(Sub(clip, plane), n) - radiusA - radiusB;
            FacePoint(clip, plane, n, radiusB, radiusA) == Add(clip, Scale(sep / 2.0 + radiusA, Neg(n)))
  {
    var d := Dot(Sub(clip, plane), n);
    var k := (d - radiusA - radiusB) / 2.0 + radiusA;
    assert ((radiusB - d) - radiusA) / 2.0 == -k;
    assert Scale(k, Neg(n)) == Scale(-k, n);
  }

  /** The masses a pass uses for one constraint. */
  datatype Masses = Masses(mA: real, iA: real, mB: real, iB: real)

  /** The two bodies' centres and angles while a constraint is solved. */
  datatype Placement = Placement(cA: Vec2, aA: real, cB: Vec2, aB: real)

  /** The clamped position error `C`: Baumgarte fraction of the separation
      beyond the slop, never positive and never below `-maxLinearCorrection`.
      It is zero exactly when the separation is within the slop. */
  function Correction(beta: real, separation: real): (c: real)
    ensures -Settings.maxLinearCorrection <= c <= 0.0
    ensures beta > 0.0 ==> (c == 0.0 <==> separation >= -Settings.linearSlop)
  {
    var raw := beta * (separation + Settings.linearSlop);
    assert beta > 0.0 && separation < -Settings.linearSlop ==> raw < 0.0 by {
      if beta > 0.0 && separation < -Settings.linearSlop {
        assert separation + Settings.linearSlop < 0.0;
      }
    }
    assert beta > 0.0 && separation >= -Settings.linearSlop ==> raw >= 0.0;
    Clamp(raw, -Settings.maxLinearCorrection, 0.0)
  }

  /** The position impulse `-C / K` (zero when `K` is not positive): never
      negative, so it only ever pushes the bodies apart. */
  function PositionImpulse(c: real, k: real): (impulse: real)
    requires c <= 0.0
    ensures impulse >= 0.0
    ensures k > 0.0 ==> impulse * k == -c
    ensures c == 0.0 ==> impulse == 0.0
  {
    if k > 0.0 then -c / k else 0.0
  }

  /** One point of a position pass, given the point's geometry. */
  function PointCorrection(pl: Placement, g: PointGeometry, ms: Masses, beta: real): (r: Placement)
    ensures WeightedPlacement(r, ms) == WeightedPlacement(pl, ms)
    ensures beta > 0.0 && g.separation >= -Settings.linearSlop ==> r == pl
    ensures ms.mA == 0.0 && ms.iA == 0.0 ==> r.cA == pl.cA && r.aA == pl.aA
    ensures ms.mB == 0.0 && ms.iB == 0.0 ==> r.cB == pl.cB && r.aB == pl.aB
  {
    var rA := Sub(g.point, pl.cA);
    var rB := Sub(g.point, pl.cB);
    var c := Correction(beta, g.separation);
    var k := InvMassAlong(ms.mA, ms.mB, ms.iA, ms.iB, rA, rB, g.normal);
    var impulse := PositionImpulse(c, k);
    Push(pl, ms, rA, rB, Scale(impulse, g.normal))
  }

  /** Apply the position impulse `P` at lever arms `rA`, `rB`: A moves against
      it, B along it. */
  function Push(pl: Placement, ms: Masses, rA: Vec2, rB: Vec2, P: Vec2): (r: Placement)
    ensures WeightedPlacement(r, ms) == WeightedPlacement(pl, ms)
    ensures P == Zero() ==> r == pl
    ensures ms.mA == 0.0 && ms.iA == 0.0 ==> r.cA == pl.cA && r.aA == pl.aA
    ensures ms.mB == 0.0 && ms.iB == 0.0 ==> r.cB == pl.cB && r.aB == pl.aB
  {
    assert ms.mB * (pl.cA.x - ms.mA * P.x) + ms.mA * (pl.cB.x + ms.mB * P.x) == ms.mB * pl.cA.x + ms.mA * pl.cB.x;
    assert ms.mB * (pl.cA.y - ms.mA * P.y) + ms.mA * (pl.cB.y + ms.mB * P.y) == ms.mB * pl.cA.y + ms.mA * pl.cB.y;
    Placement(Sub(pl.cA, Scale(ms.mA, P)), pl.aA - ms.iA * Cross(rA, P),
              Add(pl.cB, Scale(ms.mB, P)), pl.aB + ms.iB * Cross(rB, P))
  }

  /** The mass-weighted centre sum `mB cA + mA cB`, which a position impulse
      (like a velocity impulse) leaves unchanged. */
  function WeightedPlacement(pl: Placement, ms: Masses): Vec2 {
    Add(Scale(ms.mB, pl.cA), Scale(ms.mA, pl.cB))
  }

  /** To first order, a correction with a unit normal and positive effective
      mass closes the clamped error exactly: the change of the gap at the
      contact point, `(dcB + daB x rB - dcA - daA x rA) . n`, equals `-C`. */
  lemma LinearisedCorrection(pl: Placement, g: PointGeometry, ms: Masses, beta: real)
    requires LengthSquared(g.normal) == 1.0
    requires InvMassAlong(ms.mA, ms.mB, ms.iA, ms.iB, Sub(g.point, pl.cA), Sub(g.point, pl.cB), g.normal) > 0.0
    ensures var r := PointCorrection(pl, g, ms, beta);
            var rA := Sub(g.point, pl.cA);
            var rB := Sub(g.point, pl.cB);
            Dot(Sub(r.cB, pl.cB), g.normal) + (r.aB - pl.aB) * Cross(rB, g.normal)
            - Dot(Sub(r.cA, pl.cA), g.normal) - (r.aA - pl.aA) * Cross(rA, g.normal)
            == -Correction(beta, g.separation)
  {
    var rA := Sub(g.point, pl.cA);
    var rB := Sub(g.point, pl.cB);
    var k := InvMassAlong(ms.mA, ms.mB, ms.iA, ms.iB, rA, rB, g.normal);
    var j := PositionImpulse(Correction(beta, g.separation), k);
    InvMassAlongTerms(ms.mA, ms.mB, ms.iA, ms.iB, rA, rB, g.normal);
    PushGap(pl, ms, rA, rB, j, g.normal);
  }

  /** The first-order gap change of a push of size `j` along a unit normal is
      `j` times the effective-mass denominator. */
  lemma PushGap(pl: Placement, ms: Masses, rA: Vec2, rB: Vec2, j: real, n: Vec2)
    requires Dot(n, n) == 1.0
    ensures var r := Push(pl, ms, rA, rB, Scale(j, n));
            Dot(Sub(r.cB, pl.cB), n) + (r.aB - pl.aB) * Cross(rB, n)
            - Dot(Sub(r.cA, pl.cA), n) - (r.aA - pl.aA) * Cross(rA, n)
            == j * (ms.mA + ms.mB + ms.iA * Cross(rA, n) * Cross(rA, n) + ms.iB * Cross(rB, n) * Cross(rB, n))
  {
    var r := Push(pl, ms, rA, rB, Scale(j, n));
    var rnA, rnB := Cross(rA, n), Cross(rB, n);
    PushDeltas(pl, ms, rA, rB, j, n);
    DotScale(ms.mB * j, n, n);
    DotScale(-(ms.mA * j), n, n);
    var dB, dA := r.aB - pl.aB, r.aA - pl.aA;
    assert dB == ms.iB * (j * rnB);
    assert dA == -(ms.iA * (j * rnA));
    assert dB * rnB == j * (ms.iB * rnB * rnB);
    assert dA * rnA == -(j * (ms.iA * rnA * rnA));
    var qA, qB := ms.iA * rnA * rnA, ms.iB * rnB * rnB;
    assert Dot(Sub(r.cB, pl.cB), n) == ms.mB * j;
    assert Dot(Sub(r.cA, pl.cA), n) == -(ms.mA * j);
    assert j * (ms.mA + ms.mB + qA + qB) == j * ms.mA + j * ms.mB + j * qA + j * qB;
  }

  /** The displacements a point correction makes, in terms of its impulse. */
  lemma PointCorrectionDeltas(pl: Placement, g: PointGeometry, ms: Masses, beta: real)
    ensures var r := PointCorrection(pl, g, ms, beta);
            var rA := Sub(g.point, pl.cA);
            var rB := Sub(g.point, pl.cB);
            var j := PositionImpulse(Correction(beta, g.separation),
                                     InvMassAlong(ms.mA, ms.mB, ms.iA, ms.iB, rA, rB, g.normal));
            Sub(r.cB, pl.cB) == Scale(ms.mB * j, g.normal)
            && Sub(r.cA, pl.cA) == Scale(-(ms.mA * j), g.normal)
            && r.aB - pl.aB == ms.iB * (j * Cross(rB, g.normal))
            && r.aA - pl.aA == -(ms.iA * (j * Cross(rA, g.normal)))
  {
    var rA := Sub(g.point, pl.cA);
    var rB := Sub(g.point, pl.cB);
    var j := PositionImpulse(Correction(beta, g.separation),
                             InvMassAlong(ms.mA, ms.mB, ms.iA, ms.iB, rA, rB, g.normal));
    PushDeltas(pl, ms, rA, rB, j, g.normal);
  }

  lemma PushDeltas(pl: Placement, ms: Masses, rA: Vec2, rB: Vec2, j: real, n: Vec2)
    ensures var r := Push(pl, ms, rA, rB, Scale(j, n));
            Sub(r.cB, pl.cB) == Scale(ms.mB * j, n)
            && Sub(r.cA, pl.cA) == Scale(-(ms.mA * j), n)
            && r.aB - pl.aB == ms.iB * (j * Cross(rB, n))
            && r.aA - pl.aA == -(ms.iA * (j * Cross(rA, n)))
  {
    CrossScale(rA, j, n);
    CrossScale(rB, j, n);
    ScaleScale(ms.mA, j, n);
    ScaleScale(ms.mB, j, n);
  }

  /** A constraint is ready for a position pass when it joins two distinct
      bodies and its points are stored. */
  predicate PositionReady(pc: PositionConstraint, bodies: nat) {
    pc.indexA < bodies && pc.indexB < bodies && pc.indexA != pc.indexB
    && pc.pointCount <= |pc.localPoints|
  }

  /** Placement after some points, with the separations seen so far. */
  datatype Traced = Traced(pl: Placement, seps: seq<real>)

  /** The geometry of point `j` at the current placement: each body's
      transform is rebuilt from its centre and angle. */
  function GeometryAt(kit: MathKit, pc: PositionConstraint, pl: Placement, j: nat): PointGeometry
    requires 0 < pc.pointCount && j < |pc.localPoints|
  {
    PositionManifold(kit, pc, BodyTransform(kit, Position(pl.cA, pl.aA), pc.localCenterA),
                     BodyTransform(kit, Position(pl.cB, pl.aB), pc.localCenterB), j)
  }

  /** The inner loop over points `0 .. n-1` of one constraint. */
  function ConstraintPass(kit: MathKit, pc: PositionConstraint, pl: Placement, ms: Masses, beta: real,
                          n: nat): (r: Traced)
    requires n <= pc.pointCount <= |pc.localPoints|
    ensures |r.seps| == n
    ensures WeightedPlacement(r.pl, ms) == WeightedPlacement(pl, ms)
    ensures beta > 0.0 && (forall k :: 0 <= k < n ==> r.seps[k] >= -Settings.linearSlop) ==> r.pl == pl
    ensures ms.mA == 0.0 && ms.iA == 0.0 ==> r.pl.cA == pl.cA && r.pl.aA == pl.aA
    ensures ms.mB == 0.0 && ms.iB == 0.0 ==> r.pl.cB == pl.cB && r.pl.aB == pl.aB
    decreases n
  {
    if n == 0 then Traced(pl, [])
    else
      var prev := ConstraintPass(kit, pc, pl, ms, beta, n - 1);
      var g := GeometryAt(kit, pc, prev.pl, n - 1);
      var seps := prev.seps + [g.separation];
      assert forall k :: 0 <= k < n - 1 ==> seps[k] == prev.seps[k];
      assert seps[n - 1] == g.separation;
      var pl' := PointCorrection(prev.pl, g, ms, beta);
      Traced(pl', seps)
  }

  /** Which position pass runs: the regular one, or the time-of-impact one
      for the two bodies of the sub-step. */
  datatype Mode = Regular | Toi(toiA: nat, toiB: nat)

  /** The masses `solvePositionConstraints` / `solveTOIPositionConstraints`
      use, as written: in the time-of-impact pass body A keeps its masses only
      when it is one of the two sub-step bodies, but body B always keeps its
      masses (both branches of its test assign the constraint's values). */
  function MassesFor(mode: Mode, pc: PositionConstraint): (ms: Masses)
    ensures ms.mB == pc.invMassB && ms.iB == pc.invIB
    ensures Moves(mode, pc.indexA) ==> ms.mA == pc.invMassA && ms.iA == pc.invIA
    ensures !Moves(mode, pc.indexA) ==> ms.mA == 0.0 && ms.iA == 0.0
  {
    match mode
    case Regular => Masses(pc.invMassA, pc.invIA, pc.invMassB, pc.invIB)
    case Toi(a, b) =>
      if pc.indexA == a || pc.indexA == b then Masses(pc.invMassA, pc.invIA, pc.invMassB, pc.invIB)
      else Masses(0.0, 0.0, pc.invMassB, pc.invIB)
  }

  /** A body the pass may move: any body in the regular pass, only the two
      sub-step bodies in the time-of-impact pass. */
  predicate Moves(mode: Mode, k: nat) {
    mode.Regular? || k == mode.toiA || k == mode.toiB
  }

  /** The masking the time-of-impact pass evidently intends: each body keeps
      its masses only when the pass may move it. */
  function MassesIntended(mode: Mode, pc: PositionConstraint): (ms: Masses)
    ensures Moves(mode, pc.indexA) ==> ms.mA == pc.invMassA && ms.iA == pc.invIA
    ensures !Moves(mode, pc.indexA) ==> ms.mA == 0.0 && ms.iA == 0.0
    ensures Moves(mode, pc.indexB) ==> ms.mB == pc.invMassB && ms.iB == pc.invIB
    ensures !Moves(mode, pc.indexB) ==> ms.mB == 0.0 && ms.iB == 0.0
  {
    var a := MassesFor(mode, pc);
    if Moves(mode, pc.indexB) then a else a.(mB := 0.0, iB := 0.0)
  }

  /** Which masking a pass applies. */
  datatype Masking = AsWritten | Intended

  function Weights(mode: Mode, masking: Masking, pc: PositionConstraint): Masses {
    if masking == AsWritten then MassesFor(mode, pc) else MassesIntended(mode, pc)
  }

  /** The Baumgarte fraction of the pass. */
  function Beta(mode: Mode): (beta: real)
    ensures beta > 0.0
  {
    if mode.Regular? then Settings.baumgarte else Settings.toiBaugarte
  }

  /** Positions after a pass, with every separation seen, in order. */
  datatype Swept = Swept(positions: seq<Position>, seps: seq<real>)

  /** Body `k` is joined by none of the first `n` constraints. */
  predicate Untouched(pcs: seq<PositionConstraint>, n: nat, k: nat)
    requires n <= |pcs|
  {
    forall i :: 0 <= i < n ==> pcs[i].indexA != k && pcs[i].indexB != k
  }

  /** The outer loop over the first `n` constraints. Bodies no constraint
      joins keep their positions; when every separation is within the slop
      nothing moves; with the intended masking a time-of-impact pass moves
      only its two bodies. */
  function PositionPass(kit: MathKit, positions: seq<Position>, pcs: seq<PositionConstraint>, n: nat,
                        mode: Mode, masking: Masking): (r: Swept)
    requires n <= |pcs| && forall i :: 0 <= i < n ==> PositionReady(pcs[i], |positions|)
    ensures |r.positions| == |positions|
    ensures forall k :: 0 <= k < |positions| && Untouched(pcs, n, k) ==> r.positions[k] == positions[k]
    ensures (forall k :: 0 <= k < |r.seps| ==> r.seps[k] >= -Settings.linearSlop) ==> r.positions == positions
    ensures masking == Intended ==>
              forall k :: 0 <= k < |positions| && !Moves(mode, k) ==> r.positions[k] == positions[k]
    decreases n
  {
    if n == 0 then Swept(positions, [])
    else
      var prev := PositionPass(kit, positions, pcs, n - 1, mode, masking);
      var one := ConstraintStep(kit, prev.positions, pcs[n - 1], mode, masking);
      SweepJoins(positions, pcs, n, mode, masking, prev, one);
      Swept(one.positions, prev.seps + one.seps)
  }

  /** The outer loop's invariants survive one more constraint. */
  lemma SweepJoins(positions: seq<Position>, pcs: seq<PositionConstraint>, n: nat, mode: Mode, masking: Masking,
                   prev: Swept, one: Swept)
    requires 0 < n <= |pcs|
    requires |prev.positions| == |positions| && |one.positions| == |positions|
    requires forall k :: 0 <= k < |positions| && Untouched(pcs, n - 1, k) ==> prev.positions[k] == positions[k]
    requires (forall k :: 0 <= k < |prev.seps| ==> prev.seps[k] >= -Settings.linearSlop) ==> prev.positions == positions
    requires masking == Intended ==>
               forall k :: 0 <= k < |positions| && !Moves(mode, k) ==> prev.positions[k] == positions[k]
    requires forall k :: 0 <= k < |positions| && k != pcs[n - 1].indexA && k != pcs[n - 1].indexB ==>
               one.positions[k] == prev.positions[k]
    requires (forall k :: 0 <= k < |one.seps| ==> one.seps[k] >= -Settings.linearSlop) ==> one.positions == prev.positions
    requires masking == Intended ==>
               forall k :: 0 <= k < |positions| && !Moves(mode, k) ==> one.positions[k] == prev.positions[k]
    ensures forall k :: 0 <= k < |positions| && Untouched(pcs, n, k) ==> one.positions[k] == positions[k]
    ensures (forall k :: 0 <= k < |prev.seps + one.seps| ==> (prev.seps + one.seps)[k] >= -Settings.linearSlop) ==>
              one.positions == positions
    ensures masking == Intended ==>
              forall k :: 0 <= k < |positions| && !Moves(mode, k) ==> one.positions[k] == positions[k]
  {
    var seps := prev.seps + one.seps;
    assert forall k :: 0 <= k < |prev.seps| ==> seps[k] == prev.seps[k];
    assert forall k :: 0 <= k < |one.seps| ==> seps[|prev.seps| + k] == one.seps[k];
    assert forall k :: 0 <= k < |positions| && Untouched(pcs, n, k) ==>
             Untouched(pcs, n - 1, k) && k != pcs[n - 1].indexA && k != pcs[n - 1].indexB;
  }

  /** One constraint of the outer loop: its points are corrected in turn and
      the two bodies written back. Other bodies keep their positions; when
      every separation is within the slop nothing moves; with the intended
      masking a body the pass may not move keeps its position. */
  function ConstraintStep(kit: MathKit, positions: seq<Position>, pc: PositionConstraint,
                          mode: Mode, masking: Masking): (r: Swept)
    requires PositionReady(pc, |positions|)
    ensures |r.positions| == |positions|
    ensures forall k :: 0 <= k < |positions| && k != pc.indexA && k != pc.indexB ==> r.positions[k] == positions[k]
    ensures (forall k :: 0 <= k < |r.seps| ==> r.seps[k] >= -Settings.linearSlop) ==> r.positions == positions
    ensures masking == Intended ==>
              forall k :: 0 <= k < |positions| && !Moves(mode, k) ==> r.positions[k] == positions[k]
  {
    var a, b := positions[pc.indexA], positions[pc.indexB];
    var ms := Weights(mode, masking, pc);
    var c := ConstraintPass(kit, pc, Placement(a.c, a.a, b.c, b.a), ms, Beta(mode), pc.pointCount);
    var positions' := positions[pc.indexA := Position(c.pl.cA, c.pl.aA)]
                               [pc.indexB := Position(c.pl.cB, c.pl.aB)];
    Swept(positions', c.seps)
  }

  /** The smallest of 0 and the separations, taken in order as the passes
      track `minSeparation`. */
  function Lowest(seps: seq<real>): real {
    if |seps| == 0 then 0.0 else Min(Lowest(seps[..|seps| - 1]), seps[|seps| - 1])
  }

  /** For a non-positive tolerance, the tracked minimum meets it exactly when
      every separation does. */
  lemma {:induction false} LowestMeets(seps: seq<real>, tolerance: real)
    requires tolerance <= 0.0
    ensures Lowest(seps) >= tolerance <==> forall k :: 0 <= k < |seps| ==> seps[k] >= tolerance
  {
    if |seps| > 0 {
      var init := seps[..|seps| - 1];
      LowestMeets(init, tolerance);
      assert forall k :: 0 <= k < |init| ==> init[k] == seps[k];
    }
  }

  /** Result of a position pass: the new positions, whether the worst
      separation is within the pass's tolerance, and the separations seen. */
  datatype Solved = Solved(positions: seq<Position>, ok: bool, separations: seq<real>)

  /** `-3 linearSlop` for the regular pass, `-1.5 linearSlop` for the
      time-of-impact one. */
  function Tolerance(mode: Mode): real {
    if mode.Regular? then -3.0 * Settings.linearSlop else -1.5 * Settings.linearSlop
  }

  /** A pass over the solver's constraints; the verdict compares the tracked
      minimum separation with the tolerance. */
  function Solve(kit: MathKit, s: Solver, mode: Mode, masking: Masking): (r: Solved)
    requires s.count <= |s.pcs| && forall i :: 0 <= i < s.count ==> PositionReady(s.pcs[i], |s.positions|)
    ensures |r.positions| == |s.positions|
    ensures r.ok <==> forall k :: 0 <= k < |r.separations| ==> r.separations[k] >= Tolerance(mode)
    ensures s.count == 0 ==> r.ok && r.positions == s.positions
    ensures forall k :: 0 <= k < |s.positions| && Untouched(s.pcs, s.count, k) ==> r.positions[k] == s.positions[k]
    ensures (forall k :: 0 <= k < |r.separations| ==> r.separations[k] >= -Settings.linearSlop)
            ==> r.positions == s.positions
    ensures masking == Intended ==>
              forall k :: 0 <= k < |s.positions| && !Moves(mode, k) ==> r.positions[k] == s.positions[k]
  {
    var w := PositionPass(kit, s.positions, s.pcs, s.count, mode, masking);
    LowestMeets(w.seps, Tolerance(mode));
    Solved(w.positions, Lowest(w.seps) >= Tolerance(mode), w.seps)
  }

  /** `solvePositionConstraints`. */
  function SolvePositionConstraints(kit: MathKit, s: Solver): (r: Solved)
    requires s.count <= |s.pcs| && forall i :: 0 <= i < s.count ==> PositionReady(s.pcs[i], |s.positions|)
    ensures r.ok <==> forall k :: 0 <= k < |r.separations| ==> r.separations[k] >= -3.0 * Settings.linearSlop
    ensures |r.positions| == |s.positions|
    ensures s.count == 0 ==> r.ok && r.positions == s.positions
    ensures (forall k :: 0 <= k < |r.separations| ==> r.separations[k] >= -Settings.linearSlop)
            ==> r.positions == s.positions
  {
    Solve(kit, s, Regular, AsWritten)
  }

  /** `solveTOIPositionConstraints` as written: body B of every constraint
      keeps its masses, so a body outside the sub-step can be moved. */
  function SolveToiPositionConstraints(kit: MathKit, s: Solver, toiA: nat, toiB: nat): (r: Solved)
    requires s.count <= |s.pcs| && forall i :: 0 <= i < s.count ==> PositionReady(s.pcs[i], |s.positions|)
    ensures r.ok <==> forall k :: 0 <= k < |r.separations| ==> r.separations[k] >= -1.5 * Settings.linearSlop
    ensures |r.positions| == |s.positions|
    ensures forall k :: 0 <= k < |s.positions| && Untouched(s.pcs, s.count, k) ==> r.positions[k] == s.positions[k]
  {
    Solve(kit, s, Toi(toiA, toiB), AsWritten)
  }

  /** The time-of-impact pass with the intended masking: only the two
      sub-step bodies move. */
  function SolveToiPositionConstraintsIntended(kit: MathKit, s: Solver, toiA: nat, toiB: nat): (r: Solved)
    requires s.count <= |s.pcs| && forall i :: 0 <= i < s.count ==> PositionReady(s.pcs[i], |s.positions|)
    ensures r.ok <==> forall k :: 0 <= k < |r.separations| ==> r.separations[k] >= -1.5 * Settings.linearSlop
    ensures |r.positions| == |s.positions|
    ensures forall k :: 0 <= k < |s.positions| && k != toiA && k != toiB ==> r.positions[k] == s.positions[k]
  {
    Solve(kit, s, Toi(toiA, toiB), Intended)
  }

  /** As written, the time-of-impact masking lets body B move although it is
      not a sub-step body: with sub-step bodies 0 and 1, a constraint from
      body 0 to body 2 (both of inverse mass 1) penetrating by 1 along (1, 0)
      pushes body 2 by 0.1, its half of the largest correction. */
  lemma ToiMovesOtherBody()
    ensures var pc := PositionConstraint([Zero(), Zero()], Vec2(1.0, 0.0), Zero(), 0, 2, 1.0, 1.0,
                                         Zero(), Zero(), 0.0, 0.0, FaceA, 0.0, 0.0, 1);
            var ms := MassesFor(Toi(0, 1), pc);
            var g := PointGeometry(Vec2(1.0, 0.0), Zero(), -1.0);
            var r := PointCorrection(Placement(Zero(), 0.0, Zero(), 0.0), g, ms, Beta(Toi(0, 1)));
            !Moves(Toi(0, 1), 2) && ms.mB == 1.0 && r.cB == Vec2(0.1, 0.0)
  {
  }
}
