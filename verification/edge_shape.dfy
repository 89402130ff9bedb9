/** The edge shape (Collision/Shapes/EdgeShape.cs): a line segment with two
    optional neighbour vertices, its bounding box, its mass and its ray cast.

    The ray cast is modelled twice. `RaycastAsWritten` puts the ray into the
    edge's frame the way the code does, rotating the first point twice and
    the second not at all; `Raycast` rotates each point once, as the comment
    above those lines says is meant. Both then run the same guards. */
module EdgeShapes {
  import opened Geometry
  import Settings

  /** The two vertices, the optional neighbours `v0` and `v3` with their
      flags, and the skin radius. The scratch vectors are not modelled. */
  datatype EdgeShape = EdgeShape(radius: real, v0: Vec2, v1: Vec2, v2: Vec2, v3: Vec2,
                                 hasVertex0: bool, hasVertex3: bool)

  /** The constructor: the polygon skin radius; vertices at the origin and
      no neighbours (the field defaults). */
  function NewEdgeShape(): (e: EdgeShape)
    ensures e.radius == Settings.polygonRadius
    ensures !e.hasVertex0 && !e.hasVertex3
  {
    EdgeShape(Settings.polygonRadius, Zero(), Zero(), Zero(), Zero(), false, false)
  }

  /** An edge is a single child, whatever its vertices. */
  function ChildCount(e: EdgeShape): (r: nat)
    ensures r == 1
  {
    1
  }

  /** An edge has no interior: no point is inside it. */
  function TestPoint(e: EdgeShape, xf: Transform, p: Vec2): (r: bool)
    ensures !r
  {
    false
  }

  /** `Set`: both vertices copied, both neighbour flags cleared; the radius
      and the neighbour vertices are kept. */
  function Set(e: EdgeShape, v1: Vec2, v2: Vec2): (r: EdgeShape)
    ensures r.v1 == v1 && r.v2 == v2
    ensures !r.hasVertex0 && !r.hasVertex3
    ensures r.radius == e.radius && r.v0 == e.v0 && r.v3 == e.v3
  {
    e.(v1 := v1, v2 := v2, hasVertex0 := false, hasVertex3 := false)
  }

  /** Only the last `Set` counts. */
  lemma SetOverrides(e: EdgeShape, a: Vec2, b: Vec2, c: Vec2, d: Vec2)
    ensures Set(Set(e, a, b), c, d) == Set(e, c, d)
  {
  }

  /** `Clone`: a fresh edge given the radius, both flags and all four
      vertices: equal to the original in every modelled field. */
  function Clone(e: EdgeShape): (r: EdgeShape)
    ensures r == e
  {
    var blank := NewEdgeShape();
    blank.(radius := e.radius, hasVertex0 := e.hasVertex0, hasVertex3 := e.hasVertex3,
           v0 := e.v0, v1 := e.v1, v2 := e.v2, v3 := e.v3)
  }

  // ------------------------------------------------------------- bounding box

  datatype AABB = AABB(lowerBound: Vec2, upperBound: Vec2)

  /** `ComputeAABB`: the componentwise min and max of the two world vertices,
      padded by the radius on every side. With a non-negative radius the box
      is well formed and contains both vertices; it is tight: each bound,
      with the padding removed, is a vertex coordinate. */
  function ComputeAABB(e: EdgeShape, xf: Transform): (r: AABB)
    ensures e.radius >= 0.0 ==>
              r.lowerBound.x <= r.upperBound.x && r.lowerBound.y <= r.upperBound.y
    ensures e.radius >= 0.0 ==>
              Inside(r, XfMul(xf, e.v1)) && Inside(r, XfMul(xf, e.v2))
    ensures r.lowerBound.x + e.radius in {XfMul(xf, e.v1).x, XfMul(xf, e.v2).x}
    ensures r.lowerBound.y + e.radius in {XfMul(xf, e.v1).y, XfMul(xf, e.v2).y}
    ensures r.upperBound.x - e.radius in {XfMul(xf, e.v1).x, XfMul(xf, e.v2).x}
    ensures r.upperBound.y - e.radius in {XfMul(xf, e.v1).y, XfMul(xf, e.v2).y}
  {
    var w1 := XfMul(xf, e.v1);
    var w2 := XfMul(xf, e.v2);
    AABB(Vec2(Min(w1.x, w2.x) - e.radius, Min(w1.y, w2.y) - e.radius),
         Vec2(Max(w1.x, w2.x) + e.radius, Max(w1.y, w2.y) + e.radius))
  }

  predicate Inside(b: AABB, p: Vec2) {
    b.lowerBound.x <= p.x <= b.upperBound.x && b.lowerBound.y <= p.y <= b.upperBound.y
  }

  // --------------------------------------------------------------------- mass

  datatype MassData = MassData(mass: real, center: Vec2, I: real)

  /** `ComputeMass`: an edge has no mass and no inertia, whatever the
      density; its centre is the midpoint, equally far from both vertices. */
  function ComputeMass(e: EdgeShape, density: real): (r: MassData)
    ensures r.mass == 0.0 && r.I == 0.0
    ensures Add(r.center, r.center) == Add(e.v1, e.v2)
    ensures DistanceSquared(r.center, e.v1) == DistanceSquared(r.center, e.v2)
  {
    var c := Scale(0.5, Add(e.v1, e.v2));
    assert Sub(e.v1, c) == Neg(Sub(e.v2, c));
    MassData(0.0, c, 0.0)
  }

  // ----------------------------------------------------------------- ray cast

  datatype RayCastInput = RayCastInput(p1: Vec2, p2: Vec2, maxFraction: real)

  datatype RayCastOutput = RayCastOutput(normal: Vec2, fraction: real)

  /** Whether the ray hit, and the output (as given when it did not). */
  datatype Cast = Cast(hit: bool, output: RayCastOutput)

  /** The edge's normal: the edge direction turned a quarter clockwise, normalised. */
  function FaceNormal(kit: MathKit, e: EdgeShape): Vec2 {
    var r := Sub(e.v2, e.v1);
    Normalize(kit, Vec2(r.y, -r.x)).v
  }

  /** Where a point lies along the edge: 0 at `v1`, 1 at `v2`. */
  function EdgeParam(e: EdgeShape, q: Vec2): real
    requires Dot(Sub(e.v2, e.v1), Sub(e.v2, e.v1)) != 0.0
  {
    var r := Sub(e.v2, e.v1);
    Dot(Sub(q, e.v1), r) / Dot(r, r)
  }

  /** The point a fraction `t` along the ray from `p1` with direction `d`. */
  function RayPoint(p1: Vec2, d: Vec2, t: real): Vec2 {
    Add(Scale(t, d), p1)
  }

  /** The ray cast once the ray is in the edge's frame, from `p1` along `d`.
      It misses when the ray is parallel to the edge, when the crossing is
      outside the ray, when the edge is a point, or when the crossing is
      outside the edge; a miss leaves the output as it was. A hit reports
      the fraction along the ray, which puts the hit point on the edge's
      line, and the edge normal turned to face the ray's start. */
  function CastLocal(kit: MathKit, e: EdgeShape, out: RayCastOutput, p1: Vec2, d: Vec2): (r: Cast)
    ensures !r.hit ==> r.output == out
    ensures Dot(FaceNormal(kit, e), d) == 0.0 ==> !r.hit
    ensures Dot(Sub(e.v2, e.v1), Sub(e.v2, e.v1)) == 0.0 ==> !r.hit
    ensures r.hit ==> 0.0 <= r.output.fraction <= 1.0
    ensures r.hit ==> Dot(Sub(e.v2, e.v1), Sub(e.v2, e.v1)) != 0.0
                      && 0.0 <= EdgeParam(e, RayPoint(p1, d, r.output.fraction)) <= 1.0
    ensures r.hit ==> Dot(FaceNormal(kit, e), Sub(RayPoint(p1, d, r.output.fraction), e.v1)) == 0.0
    ensures r.hit && Dot(FaceNormal(kit, e), Sub(e.v1, p1)) > 0.0 ==> r.output.normal == Neg(FaceNormal(kit, e))
    ensures r.hit && Dot(FaceNormal(kit, e), Sub(e.v1, p1)) <= 0.0 ==> r.output.normal == FaceNormal(kit, e)
    ensures r.hit ==> Dot(r.output.normal, Sub(p1, e.v1)) >= 0.0
  {
    var n := FaceNormal(kit, e);
    var numerator := Dot(n, Sub(e.v1, p1));
    var denominator := Dot(n, d);
    if denominator == 0.0 then Cast(false, out)
    else
      var t := numerator / denominator;
      if t < 0.0 || 1.0 < t then Cast(false, out)
      else
        var q := RayPoint(p1, d, t);
        var r := Sub(e.v2, e.v1);
        var rr := Dot(r, r);
        if rr == 0.0 then Cast(false, out)
        else
          var s := Dot(Sub(q, e.v1), r) / rr;
          if s < 0.0 || 1.0 < s then Cast(false, out)
          else
            OnEdgeLine(n, p1, d, e.v1, t);
            Cast(true, RayCastOutput(if numerator > 0.0 then Neg(n) else n, t))
  }

  /** The fraction `t = numerator / denominator` solves the line equation. */
  lemma OnEdgeLine(n: Vec2, p1: Vec2, d: Vec2, v1: Vec2, t: real)
    requires Dot(n, d) != 0.0
    requires t == Dot(n, Sub(v1, p1)) / Dot(n, d)
    ensures Dot(n, Sub(RayPoint(p1, d, t), v1)) == 0.0
  {
    var num := Dot(n, Sub(v1, p1));
    var den := Dot(n, d);
    assert t * den == num;
    calc {
      Dot(n, Sub(RayPoint(p1, d, t), v1));
      n.x * (t * d.x + p1.x - v1.x) + n.y * (t * d.y + p1.y - v1.y);
      t * (n.x * d.x + n.y * d.y) - (n.x * (v1.x - p1.x) + n.y * (v1.y - p1.y));
      t * den - num;
      0.0;
    }
  }

  /** A world point in the edge's frame: translate, then rotate back. */
  function ToLocal(xf: Transform, p: Vec2): Vec2 {
    RotMulTrans(xf.q, Sub(p, xf.p))
  }

  /** `Raycast` as written: the first point is rotated into the frame twice,
      the second point is translated but not rotated. */
  function RaycastAsWritten(kit: MathKit, e: EdgeShape, out: RayCastOutput, input: RayCastInput, xf: Transform): (r: Cast)
    ensures !r.hit ==> r.output == out
    ensures r.hit ==> 0.0 <= r.output.fraction <= 1.0
    ensures Dot(Sub(e.v2, e.v1), Sub(e.v2, e.v1)) == 0.0 ==> !r.hit
  {
    var p1 := RotMulTrans(xf.q, ToLocal(xf, input.p1));
    var p2 := Sub(input.p2, xf.p);
    CastLocal(kit, e, out, p1, Sub(p2, p1))
  }

  /** `Raycast` as intended: both points put into the frame once. */
  function Raycast(kit: MathKit, e: EdgeShape, out: RayCastOutput, input: RayCastInput, xf: Transform): (r: Cast)
    ensures !r.hit ==> r.output == out
    ensures r.hit ==> 0.0 <= r.output.fraction <= 1.0
    ensures Dot(Sub(e.v2, e.v1), Sub(e.v2, e.v1)) == 0.0 ==> !r.hit
  {
    var p1 := ToLocal(xf, input.p1);
    var p2 := ToLocal(xf, input.p2);
    CastLocal(kit, e, out, p1, Sub(p2, p1))
  }

  /** Without rotation the two frames coincide, so the defect is invisible. */
  lemma AgreeWithoutRotation(kit: MathKit, e: EdgeShape, out: RayCastOutput, input: RayCastInput, xf: Transform)
    requires xf.q == Rot(0.0, 1.0)
    ensures RaycastAsWritten(kit, e, out, input, xf) == Raycast(kit, e, out, input, xf)
  {
    var p := ToLocal(xf, input.p1);
    assert RotMulTrans(xf.q, p) == p;
    assert ToLocal(xf, input.p2) == Sub(input.p2, xf.p);
  }

  lemma RotMulUndoesTrans(q: Rot, v: Vec2)
    requires UnitRot(q)
    ensures RotMul(q, RotMulTrans(q, v)) == v
  {
    var w := RotMulTrans(q, v);
    calc {
      q.c * w.x - q.s * w.y;
      q.c * (q.c * v.x + q.s * v.y) - q.s * (-q.s * v.x + q.c * v.y);
      (q.s * q.s + q.c * q.c) * v.x;
      v.x;
    }
    calc {
      q.s * w.x + q.c * w.y;
      q.s * (q.c * v.x + q.s * v.y) + q.c * (-q.s * v.x + q.c * v.y);
      (q.s * q.s + q.c * q.c) * v.y;
      v.y;
    }
  }

  /** A unit rotation keeps dot products. */
  lemma RotMulKeepsDot(q: Rot, a: Vec2, b: Vec2)
    requires UnitRot(q)
    ensures Dot(RotMul(q, a), RotMul(q, b)) == Dot(a, b)
  {
    calc {
      Dot(RotMul(q, a), RotMul(q, b));
      (q.c * a.x - q.s * a.y) * (q.c * b.x - q.s * b.y) + (q.s * a.x + q.c * a.y) * (q.s * b.x + q.c * b.y);
      (q.s * q.s + q.c * q.c) * (a.x * b.x) + (q.s * q.s + q.c * q.c) * (a.y * b.y);
      a.x * b.x + a.y * b.y;
    }
  }

  /** Rotation is linear: it maps the ray point to the ray point of the images. */
  lemma RotMulOfRayPoint(q: Rot, p1: Vec2, d: Vec2, t: real)
    ensures RotMul(q, RayPoint(p1, d, t)) == RayPoint(RotMul(q, p1), RotMul(q, d), t)
  {
    assert q.c * (t * d.x + p1.x) - q.s * (t * d.y + p1.y)
        == t * (q.c * d.x - q.s * d.y) + (q.c * p1.x - q.s * p1.y);
    assert q.s * (t * d.x + p1.x) + q.c * (t * d.y + p1.y)
        == t * (q.s * d.x + q.c * d.y) + (q.s * p1.x + q.c * p1.y);
  }

  lemma RotMulOfSub(q: Rot, a: Vec2, b: Vec2)
    ensures RotMul(q, Sub(a, b)) == Sub(RotMul(q, a), RotMul(q, b))
  {
    assert q.c * (a.x - b.x) - q.s * (a.y - b.y) == (q.c * a.x - q.s * a.y) - (q.c * b.x - q.s * b.y);
    assert q.s * (a.x - b.x) + q.c * (a.y - b.y) == (q.s * a.x + q.c * a.y) - (q.s * b.x + q.c * b.y);
  }

  /** The point a fraction `t` along the world ray, and the world image of
      the local hit point, differ only by the frame's translation. */
  lemma WorldRayPoint(xf: Transform, input: RayCastInput, t: real)
    requires UnitRot(xf.q)
    ensures RotMul(xf.q, RayPoint(ToLocal(xf, input.p1), Sub(ToLocal(xf, input.p2), ToLocal(xf, input.p1)), t))
            == Sub(RayPoint(input.p1, Sub(input.p2, input.p1), t), xf.p)
  {
    var a := Sub(input.p1, xf.p);
    var b := Sub(input.p2, xf.p);
    var p1 := ToLocal(xf, input.p1);
    var p2 := ToLocal(xf, input.p2);
    RotMulUndoesTrans(xf.q, a);
    RotMulUndoesTrans(xf.q, b);
    RotMulOfSub(xf.q, p2, p1);
    RotMulOfRayPoint(xf.q, p1, Sub(p2, p1), t);
    assert RotMul(xf.q, Sub(p2, p1)) == Sub(b, a);
    assert Sub(b, a) == Sub(input.p2, input.p1);
  }

  /** The property the frame change is for: with the intended frame, a hit
      at fraction `t` means the point `t` along the world ray lies on the
      world edge's line (normal to the world image of the edge normal). */
  lemma RaycastHitsWorldEdgeLine(kit: MathKit, e: EdgeShape, out: RayCastOutput, input: RayCastInput, xf: Transform)
    requires UnitRot(xf.q)
    requires Raycast(kit, e, out, input, xf).hit
    ensures Dot(RotMul(xf.q, FaceNormal(kit, e)),
                Sub(RayPoint(input.p1, Sub(input.p2, input.p1), Raycast(kit, e, out, input, xf).output.fraction),
                    XfMul(xf, e.v1))) == 0.0
  {
    var t := Raycast(kit, e, out, input, xf).output.fraction;
    var n := FaceNormal(kit, e);
    var p1 := ToLocal(xf, input.p1);
    var d := Sub(ToLocal(xf, input.p2), p1);
    var h := RayPoint(p1, d, t);
    assert Dot(n, Sub(h, e.v1)) == 0.0;
    WorldRayPoint(xf, input, t);
    RotMulOfSub(xf.q, h, e.v1);
    RotMulKeepsDot(xf.q, n, Sub(h, e.v1));
    var world := RayPoint(input.p1, Sub(input.p2, input.p1), t);
    assert Sub(world, XfMul(xf, e.v1)) == Sub(Sub(world, xf.p), RotMul(xf.q, e.v1));
  }

  /** A quarter turn about the origin. */
  function QuarterTurn(): Transform {
    Transform(Zero(), Rot(1.0, 0.0))
  }

  lemma QuarterTurnIsUnit()
    ensures UnitRot(QuarterTurn().q)
  {
  }

  /** Into the quarter-turned frame, a point turns a quarter clockwise. */
  lemma QuarterTurnLocal(v: Vec2)
    ensures ToLocal(QuarterTurn(), v) == Vec2(v.y, -v.x)
  {
  }

  /** The written code turns the first point a second time: a half turn. */
  lemma QuarterTurnTwice(v: Vec2)
    ensures RotMulTrans(QuarterTurn().q, ToLocal(QuarterTurn(), v)) == Neg(v)
  {
    QuarterTurnLocal(v);
  }

  /** For a ray symmetric about the frame's origin, the written frame change
      lands both ends on the same point: the ray collapses. */
  lemma AsWrittenCollapsesRay(input: RayCastInput)
    requires input.p2 == Neg(input.p1)
    ensures RotMulTrans(QuarterTurn().q, ToLocal(QuarterTurn(), input.p1))
            == Sub(input.p2, QuarterTurn().p)
  {
    QuarterTurnTwice(input.p1);
  }

  /** So the written ray cast misses every edge under a quarter turn for such
      a ray, including the edge from (0, -1) to (0, 1) in world space (the
      local edge from (-1, 0) to (1, 0)) which the ray from (-1, 0) to (1, 0)
      crosses at its midpoint. */
  lemma AsWrittenMissesQuarterTurn(kit: MathKit, e: EdgeShape, out: RayCastOutput, input: RayCastInput)
    requires input.p2 == Neg(input.p1)
    ensures !RaycastAsWritten(kit, e, out, input, QuarterTurn()).hit
  {
    AsWrittenCollapsesRay(input);
    var p1 := RotMulTrans(QuarterTurn().q, ToLocal(QuarterTurn(), input.p1));
    assert Sub(Sub(input.p2, QuarterTurn().p), p1) == Zero();
    assert Dot(FaceNormal(kit, e), Zero()) == 0.0;
  }

  /** The intended frame change keeps the ray: its local direction is the
      world direction turned back, of the same length. */
  lemma IntendedKeepsRay(input: RayCastInput, xf: Transform)
    requires UnitRot(xf.q)
    ensures Sub(ToLocal(xf, input.p2), ToLocal(xf, input.p1)) == RotMulTrans(xf.q, Sub(input.p2, input.p1))
    ensures LengthSquared(Sub(ToLocal(xf, input.p2), ToLocal(xf, input.p1)))
            == LengthSquared(Sub(input.p2, input.p1))
  {
    var a := Sub(input.p1, xf.p);
    var b := Sub(input.p2, xf.p);
    RotMulTransOfSub(xf.q, b, a);
    assert Sub(b, a) == Sub(input.p2, input.p1);
    RotMulTransKeepsLength(xf.q, Sub(input.p2, input.p1));
  }

  lemma RotMulTransOfSub(q: Rot, a: Vec2, b: Vec2)
    ensures RotMulTrans(q, Sub(a, b)) == Sub(RotMulTrans(q, a), RotMulTrans(q, b))
  {
    assert q.c * (a.x - b.x) + q.s * (a.y - b.y) == (q.c * a.x + q.s * a.y) - (q.c * b.x + q.s * b.y);
    assert -q.s * (a.x - b.x) + q.c * (a.y - b.y) == (-q.s * a.x + q.c * a.y) - (-q.s * b.x + q.c * b.y);
  }

  lemma RotMulTransKeepsLength(q: Rot, v: Vec2)
    requires UnitRot(q)
    ensures LengthSquared(RotMulTrans(q, v)) == LengthSquared(v)
  {
    var w := RotMulTrans(q, v);
    calc {
      w.x * w.x + w.y * w.y;
      (q.c * v.x + q.s * v.y) * (q.c * v.x + q.s * v.y) + (-q.s * v.x + q.c * v.y) * (-q.s * v.x + q.c * v.y);
      (q.s * q.s + q.c * q.c) * (v.x * v.x) + (q.s * q.s + q.c * q.c) * (v.y * v.y);
      v.x * v.x + v.y * v.y;
    }
  }
}
