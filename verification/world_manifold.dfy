/** World-space contact data (Collision/WorldManifold.cs): the world normal and
    world contact points computed from a manifold, the two body transforms and
    the two shape radii. Each world point is the midpoint between the contact
    point on A's surface and the one on B's surface. */
module WorldManifolds {
  import opened Geometry
  import opened Manifolds
  import Settings

  datatype WorldManifold = WorldManifold(normal: Vec2, points: seq<Vec2>)

  /** The constructor: zero normal, `maxManifoldPoints` zero points. */
  function NewWorldManifold(): (r: WorldManifold)
    ensures r.normal == Zero()
    ensures |r.points| == Settings.maxManifoldPoints
    ensures forall i :: 0 <= i < |r.points| ==> r.points[i] == Zero()
  {
    WorldManifold(Zero(), seq(Settings.maxManifoldPoints, _ => Zero()))
  }

  function Midpoint(a: Vec2, b: Vec2): Vec2 { Scale(0.5, Add(a, b)) }

  /** The circles normal: (1, 0) while the centres are within EPSILON of each
      other, otherwise the normalised centre-to-centre direction. */
  function CirclesNormal(kit: MathKit, pA: Vec2, pB: Vec2): (n: Vec2)
    ensures DistanceSquared(pA, pB) <= Settings.EPSILON * Settings.EPSILON ==> n == Vec2(1.0, 0.0)
  {
    if DistanceSquared(pA, pB) > Settings.EPSILON * Settings.EPSILON
    then Normalize(kit, Sub(pB, pA)).v
    else Vec2(1.0, 0.0)
  }

  /** The circles point: midpoint of `pA + rA n` and `pB - rB n`. */
  function CirclesPoint(pA: Vec2, pB: Vec2, n: Vec2, radiusA: real, radiusB: real): Vec2 {
    Midpoint(Add(Scale(radiusA, n), pA), Add(Scale(-radiusB, n), pB))
  }

  /** A face point: `clip` is pushed onto the reference face's surface
      (`cA`, at distance `radiusRef` above the plane) and onto its own surface
      (`cB`, `radiusInc` below the clip point); the result is their midpoint.
      It is the clip point moved along `n` by half of
      `(radiusRef - dot(clip - plane, n)) - radiusInc`. */
  function FacePoint(clip: Vec2, plane: Vec2, n: Vec2, radiusRef: real, radiusInc: real): (p: Vec2)
    ensures p == Add(clip, Scale(((radiusRef - Dot(Sub(clip, plane), n)) - radiusInc) / 2.0, n))
  {
    var scalar := radiusRef - Dot(Sub(clip, plane), n);
    var cA := Add(Scale(scalar, n), clip);
    var cB := Add(Scale(-radiusInc, n), clip);
    Midpoint(cA, cB)
  }

  /** `points` with entry `i < count` replaced by `f(i)`. */
  function UpdatePrefix(points: seq<Vec2>, count: nat, f: nat -> Vec2): (r: seq<Vec2>)
    ensures |r| == |points|
    ensures forall i :: 0 <= i < |r| && i < count ==> r[i] == f(i)
    ensures forall i :: count <= i < |r| ==> r[i] == points[i]
  {
    seq(|points|, i requires 0 <= i < |points| => if i < count then f(i) else points[i])
  }

  /** `initialize`. A manifold without points leaves the world manifold as it
      was; otherwise the normal and the first `pointCount` points (only point 0
      for circles) are recomputed and the remaining points are left alone. */
  function Initialize(kit: MathKit, wm: WorldManifold, m: Manifold,
                      xfA: Transform, radiusA: real, xfB: Transform, radiusB: real): (r: WorldManifold)
    requires ValidManifold(m) && |wm.points| == Settings.maxManifoldPoints
    ensures |r.points| == |wm.points|
    ensures m.pointCount == 0 ==> r == wm
    ensures m.pointCount > 0 && m.kind == Circles ==>
      forall i :: 1 <= i < |r.points| ==> r.points[i] == wm.points[i]
    ensures m.pointCount > 0 && m.kind != Circles ==>
      forall i :: m.pointCount <= i < |r.points| ==> r.points[i] == wm.points[i]
    ensures m.pointCount > 0 && m.kind == FaceA ==> r.normal == RotMul(xfA.q, m.localNormal)
    ensures m.pointCount > 0 && m.kind == FaceB ==> r.normal == Neg(RotMul(xfB.q, m.localNormal))
    ensures m.pointCount > 0 && m.kind == Circles
            && DistanceSquared(XfMul(xfA, m.localPoint), XfMul(xfB, m.points[0].localPoint))
               <= Settings.EPSILON * Settings.EPSILON
            ==> r.normal == Vec2(1.0, 0.0)
    ensures m.pointCount > 0 && m.kind == Circles ==>
              var pA := XfMul(xfA, m.localPoint);
              var pB := XfMul(xfB, m.points[0].localPoint);
              r.normal == CirclesNormal(kit, pA, pB)
              && r.points[0] == CirclesPoint(pA, pB, CirclesNormal(kit, pA, pB), radiusA, radiusB)
    ensures m.pointCount > 0 && m.kind == FaceA ==>
              forall i :: 0 <= i < m.pointCount ==>
                r.points[i] == FacePoint(XfMul(xfB, m.points[i].localPoint), XfMul(xfA, m.localPoint),
                                         RotMul(xfA.q, m.localNormal), radiusA, radiusB)
    ensures m.pointCount > 0 && m.kind == FaceB ==>
              forall i :: 0 <= i < m.pointCount ==>
                r.points[i] == FacePoint(XfMul(xfA, m.points[i].localPoint), XfMul(xfB, m.localPoint),
                                         RotMul(xfB.q, m.localNormal), radiusB, radiusA)
  {
    if m.pointCount == 0 then wm
    else match m.kind
      case Circles =>
        var pA := XfMul(xfA, m.localPoint);
        var pB := XfMul(xfB, m.points[0].localPoint);
        var n := CirclesNormal(kit, pA, pB);
        WorldManifold(n, wm.points[0 := CirclesPoint(pA, pB, n, radiusA, radiusB)])
      case FaceA =>
        var n := RotMul(xfA.q, m.localNormal);
        var plane := XfMul(xfA, m.localPoint);
        WorldManifold(n, UpdatePrefix(wm.points, m.pointCount,
          (i: nat) => if i < |m.points| then FacePoint(XfMul(xfB, m.points[i].localPoint), plane, n, radiusA, radiusB)
               else Zero()))
      case FaceB =>
        var n := RotMul(xfB.q, m.localNormal);
        var plane := XfMul(xfB, m.localPoint);
        WorldManifold(Neg(n), UpdatePrefix(wm.points, m.pointCount,
          (i: nat) => if i < |m.points| then FacePoint(XfMul(xfA, m.points[i].localPoint), plane, n, radiusB, radiusA)
               else Zero()))
  }

  /** With a unit normal, a face point sits on the normal line half-way through
      the gap: its height above the reference plane is the reference radius plus
      half the separation `dot(clip - plane, n) - radiusRef - radiusInc`. */
  lemma FacePointMidway(clip: Vec2, plane: Vec2, n: Vec2, radiusRef: real, radiusInc: real)
    requires LengthSquared(n) == 1.0
    ensures Dot(Sub(FacePoint(clip, plane, n, radiusRef, radiusInc), plane), n)
            == radiusRef + (Dot(Sub(clip, plane), n) - radiusRef - radiusInc) / 2.0
  {
    var d := Dot(Sub(clip, plane), n);
    var k := ((radiusRef - d) - radiusInc) / 2.0;
    var p := FacePoint(clip, plane, n, radiusRef, radiusInc);
    assert Sub(p, plane) == Add(Sub(clip, plane), Scale(k, n));
    DotDistributes(Sub(clip, plane), Scale(k, n), n);
    DotScale(k, n, n);
    assert Dot(n, n) == 1.0;
  }

  /** FACE_A: for a unit rotation and unit local normal every written point lies
      half-way between the two surfaces, measured along the world normal from A's
      reference face. */
  lemma FaceAPointsMidway(kit: MathKit, wm: WorldManifold, m: Manifold,
                          xfA: Transform, radiusA: real, xfB: Transform, radiusB: real, i: nat)
    requires ValidManifold(m) && |wm.points| == Settings.maxManifoldPoints
    requires m.kind == FaceA && i < m.pointCount
    requires UnitRot(xfA.q) && LengthSquared(m.localNormal) == 1.0
    ensures var r := Initialize(kit, wm, m, xfA, radiusA, xfB, radiusB);
            var plane := XfMul(xfA, m.localPoint);
            var clip := XfMul(xfB, m.points[i].localPoint);
            LengthSquared(r.normal) == 1.0
            && Dot(Sub(r.points[i], plane), r.normal)
               == radiusA + (Dot(Sub(clip, plane), r.normal) - radiusA - radiusB) / 2.0
  {
    var n := RotMul(xfA.q, m.localNormal);
    RotMulKeepsLength(xfA.q, m.localNormal);
    FacePointMidway(XfMul(xfB, m.points[i].localPoint), XfMul(xfA, m.localPoint), n, radiusA, radiusB);
  }

  /** FACE_B: the same with the roles swapped. The reported normal points from
      A to B, so the height is measured against its negation from B's face. */
  lemma FaceBPointsMidway(kit: MathKit, wm: WorldManifold, m: Manifold,
                          xfA: Transform, radiusA: real, xfB: Transform, radiusB: real, i: nat)
    requires ValidManifold(m) && |wm.points| == Settings.maxManifoldPoints
    requires m.kind == FaceB && i < m.pointCount
    requires UnitRot(xfB.q) && LengthSquared(m.localNormal) == 1.0
    ensures var r := Initialize(kit, wm, m, xfA, radiusA, xfB, radiusB);
            var plane := XfMul(xfB, m.localPoint);
            var clip := XfMul(xfA, m.points[i].localPoint);
            LengthSquared(r.normal) == 1.0
            && Dot(Sub(r.points[i], plane), Neg(r.normal))
               == radiusB + (Dot(Sub(clip, plane), Neg(r.normal)) - radiusB - radiusA) / 2.0
  {
    var n := RotMul(xfB.q, m.localNormal);
    RotMulKeepsLength(xfB.q, m.localNormal);
    assert Neg(Neg(n)) == n;
    FacePointMidway(XfMul(xfA, m.points[i].localPoint), XfMul(xfB, m.localPoint), n, radiusB, radiusA);
  }

  /** CIRCLES: when the centres are more than EPSILON apart and the square root
      is sound, the normal is the unit direction from A's centre to B's, and the
      point lies on the segment's line at `(distance + radiusA - radiusB) / 2`
      from A's centre, half-way between the two circles' surfaces. */
  lemma CirclesPointMidway(kit: MathKit, pA: Vec2, pB: Vec2, radiusA: real, radiusB: real)
    requires SoundSqrt(kit)
    requires DistanceSquared(pA, pB) > Settings.EPSILON * Settings.EPSILON
    ensures var n := CirclesNormal(kit, pA, pB);
            var d := Length(kit, Sub(pB, pA));
            LengthSquared(n) == 1.0
            && Sub(pB, pA) == Scale(d, n)
            && CirclesPoint(pA, pB, n, radiusA, radiusB) == Add(pA, Scale((d + radiusA - radiusB) / 2.0, n))
  {
    var v := Sub(pB, pA);
    var d := Length(kit, v);
    LengthSquares(kit, v);
    if d < Settings.EPSILON {
      SquareMonotone(d, Settings.EPSILON);
      assert false;
    }
    NormalizeScalesBack(kit, v);
    CirclesPointOnLine(pA, pB, Normalize(kit, v).v, d, radiusA, radiusB);
  }

  /** The circles point expressed along the normal, once `pB - pA == d n`. */
  lemma CirclesPointOnLine(pA: Vec2, pB: Vec2, n: Vec2, d: real, radiusA: real, radiusB: real)
    requires Sub(pB, pA) == Scale(d, n)
    ensures CirclesPoint(pA, pB, n, radiusA, radiusB) == Add(pA, Scale((d + radiusA - radiusB) / 2.0, n))
  {
    assert pB == Add(pA, Scale(d, n));
  }
}
