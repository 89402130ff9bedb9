/** The constant-volume joint (Dynamics/Joints/ConstantVolumeJoint.cs): a ring
    of bodies held together by distance joints, pushed outward or inward
    along the edge normals so that the enclosed area stays at a target.

    Body centres are given as a function from body handle to world centre at
    construction, and as a sequence aligned with the ring (entry `i` is the
    centre of `bodies[i]`) when the edges are corrected. The distance joints
    the ring owns live in the world's joint registry. */
module ConstantVolumeJoints {
  import opened Geometry
  import opened Joints
  import opened ConstantVolumeJointDefs
  import Settings

  datatype Cvj = Cvj(base: Joint, bodies: seq<nat>, targetLengths: seq<real>, targetVolume: real,
                     normals: seq<Vec2>, distanceJoints: seq<nat>,
                     frequencyHz: real, dampingRatio: real)

  /** The two ways the constructor throws. */
  datatype CvjError = TooFewBodies | JointsMismatch

  datatype Outcome = Built(joint: Cvj) | Rejected(error: CvjError)

  /** The world after construction, and the joint or the error. */
  datatype Construction = Construction(world: World, outcome: Outcome)

  // ---------------------------------------------------------------- the ring

  /** The ring successor of position `i`, computed as the source does: the
      last position wraps to 0. */
  function Next(i: nat, n: nat): (r: nat)
    requires i < n
    ensures r < n
    ensures r == (i + 1) % n
  {
    if i == n - 1 then 0 else i + 1
  }

  /** The ring predecessor: the only position whose successor is `k`. */
  function Prev(k: nat, n: nat): (r: nat)
    requires k < n
    ensures r < n
    ensures forall i :: 0 <= i < n ==> (Next(i, n) == k <==> i == r)
  {
    if k == 0 then n - 1 else k - 1
  }

  /** The world centres of the ring's bodies, in ring order. */
  function CentersOf(center: nat -> Vec2, bodies: seq<nat>): (cs: seq<Vec2>)
    ensures |cs| == |bodies|
    ensures forall i :: 0 <= i < |bodies| ==> cs[i] == center(bodies[i])
  {
    seq(|bodies|, i requires 0 <= i < |bodies| => center(bodies[i]))
  }

  // ---------------------------------------------------------------- the area

  /** The `Area` getter's loop: the cross terms of consecutive centres
      `0-1, 1-2, ..., (k-1)-k`. */
  function ChainSum(cs: seq<Vec2>, k: nat): real
    requires k < |cs|
    decreases k
  {
    if k == 0 then 0.0 else ChainSum(cs, k - 1) + Cross(cs[k - 1], cs[k])
  }

  /** The `Area` getter: the closing term (last, first), then the loop, halved. */
  function Area(cs: seq<Vec2>): real
    requires |cs| >= 1
  {
    0.5 * (Cross(cs[|cs| - 1], cs[0]) + ChainSum(cs, |cs| - 1))
  }

  /** Reference definition: the shoelace sum over every ring edge `i -> Next(i)`. */
  function CyclicSum(cs: seq<Vec2>, k: nat): real
    requires k <= |cs|
    decreases k
  {
    if k == 0 then 0.0 else CyclicSum(cs, k - 1) + Cross(cs[k - 1], cs[Next(k - 1, |cs|)])
  }

  lemma {:induction false} CyclicPrefix(cs: seq<Vec2>, k: nat)
    requires k < |cs|
    ensures CyclicSum(cs, k) == ChainSum(cs, k)
    decreases k
  {
    if k > 0 {
      CyclicPrefix(cs, k - 1);
      assert Next(k - 1, |cs|) == k;
    }
  }

  /** The getter computes half the shoelace sum over the closed ring. */
  lemma AreaIsShoelace(cs: seq<Vec2>)
    requires |cs| >= 1
    ensures Area(cs) == 0.5 * CyclicSum(cs, |cs|)
  {
    var n := |cs|;
    CyclicPrefix(cs, n - 1);
    assert Next(n - 1, n) == 0;
    assert CyclicSum(cs, n) == ChainSum(cs, n - 1) + Cross(cs[n - 1], cs[0]);
  }

  /** Every centre moved by `t`. */
  function Translate(cs: seq<Vec2>, t: Vec2): (r: seq<Vec2>)
    ensures |r| == |cs|
    ensures forall i :: 0 <= i < |cs| ==> r[i] == Add(cs[i], t)
  {
    seq(|cs|, i requires 0 <= i < |cs| => Add(cs[i], t))
  }

  lemma CrossOfTranslated(a: Vec2, b: Vec2, t: Vec2)
    ensures Cross(Add(a, t), Add(b, t)) == Cross(a, b) + Cross(t, b) - Cross(t, a)
  {
  }

  /** Translating the ring changes the chain sum only through its end points. */
  lemma {:induction false} ChainSumTelescopes(cs: seq<Vec2>, t: Vec2, k: nat)
    requires k < |cs|
    ensures ChainSum(Translate(cs, t), k) == ChainSum(cs, k) + Cross(t, cs[k]) - Cross(t, cs[0])
    decreases k
  {
    if k > 0 {
      ChainSumTelescopes(cs, t, k - 1);
      CrossOfTranslated(cs[k - 1], cs[k], t);
    }
  }

  /** The enclosed area does not depend on where the ring is. */
  lemma AreaTranslationInvariant(cs: seq<Vec2>, t: Vec2)
    requires |cs| >= 1
    ensures Area(Translate(cs, t)) == Area(cs)
  {
    var n := |cs|;
    ChainSumTelescopes(cs, t, n - 1);
    CrossOfTranslated(cs[n - 1], cs[0], t);
  }

  // ------------------------------------------------------------ construction

  /** `targetLengths`: the distance from each centre to the next one round the ring. */
  function TargetLengths(kit: MathKit, cs: seq<Vec2>): (r: seq<real>)
    ensures |r| == |cs|
  {
    seq(|cs|, i requires 0 <= i < |cs| => Length(kit, Sub(cs[i], cs[Next(i, |cs|)])))
  }

  /** With a sound square root, each target length is the true distance. */
  lemma TargetLengthsAreDistances(kit: MathKit, cs: seq<Vec2>)
    requires SoundSqrt(kit)
    ensures forall i :: 0 <= i < |cs| ==>
      TargetLengths(kit, cs)[i] >= 0.0
      && TargetLengths(kit, cs)[i] * TargetLengths(kit, cs)[i] == DistanceSquared(cs[Next(i, |cs|)], cs[i])
  {
    forall i | 0 <= i < |cs|
      ensures TargetLengths(kit, cs)[i] >= 0.0
      ensures TargetLengths(kit, cs)[i] * TargetLengths(kit, cs)[i] == DistanceSquared(cs[Next(i, |cs|)], cs[i])
    {
      LengthSquares(kit, Sub(cs[i], cs[Next(i, |cs|)]));
    }
  }

  /** The distance joint created for edge `i`: `initialize` with the two
      world centres as anchors, so its rest length is the anchor distance. */
  function RingLink(kit: MathKit, bodies: seq<nat>, cs: seq<Vec2>, frequencyHz: real, dampingRatio: real, i: nat): (r: DistanceLink)
    requires i < |bodies| == |cs|
    ensures r.bodyA == bodies[i] && r.bodyB == bodies[(i + 1) % |bodies|]
    ensures r.frequencyHz == frequencyHz && r.dampingRatio == dampingRatio
  {
    var next := Next(i, |bodies|);
    DistanceLink(bodies[i], bodies[next], frequencyHz, dampingRatio, Length(kit, Sub(cs[next], cs[i])))
  }

  /** Each created link rests at the ring's target length for its edge. */
  lemma LinkRestsAtTargetLength(kit: MathKit, bodies: seq<nat>, cs: seq<Vec2>, frequencyHz: real, dampingRatio: real, i: nat)
    requires i < |bodies| == |cs|
    ensures RingLink(kit, bodies, cs, frequencyHz, dampingRatio, i).length == TargetLengths(kit, cs)[i]
  {
    var next := Next(i, |cs|);
    assert LengthSquared(Sub(cs[next], cs[i])) == LengthSquared(Sub(cs[i], cs[next]));
  }

  /** `w'` is `w` plus exactly the links `hs`, each fresh, distinct, and
      joining ring position `i` to its successor. */
  predicate Wired(kit: MathKit, w: World, w': World, hs: seq<nat>, bodies: seq<nat>, cs: seq<Vec2>,
                  frequencyHz: real, dampingRatio: real)
  {
    |hs| <= |bodies| == |cs|
    && (forall i :: 0 <= i < |hs| ==>
          hs[i] !in w.links && hs[i] in w'.links
          && w'.links[hs[i]] == RingLink(kit, bodies, cs, frequencyHz, dampingRatio, i))
    && (forall i, i' :: 0 <= i < i' < |hs| ==> hs[i] != hs[i'])
    && (forall h :: h in w.links ==> h in w'.links && w'.links[h] == w.links[h])
    && (forall h :: h in w'.links ==> h in w.links || h in hs)
  }

  /** The constructor's creation loop, first `k` iterations. */
  function CreateLinks(kit: MathKit, w: World, bodies: seq<nat>, cs: seq<Vec2>,
                       frequencyHz: real, dampingRatio: real, k: nat): (r: (World, seq<nat>))
    requires WorldValid(w) && k <= |bodies| == |cs|
    ensures WorldValid(r.0) && |r.1| == k
    ensures Wired(kit, w, r.0, r.1, bodies, cs, frequencyHz, dampingRatio)
    decreases k
  {
    if k == 0 then (w, [])
    else
      var prev := CreateLinks(kit, w, bodies, cs, frequencyHz, dampingRatio, k - 1);
      var made := CreateJoint(prev.0, RingLink(kit, bodies, cs, frequencyHz, dampingRatio, k - 1));
      WiredExtends(kit, w, prev.0, prev.1, made.0, made.1, bodies, cs, frequencyHz, dampingRatio);
      (made.0, prev.1 + [made.1])
  }

  /** One more creation keeps the registry wired: the new handle is fresh, so
      it differs from every earlier one and from every pre-existing joint. */
  lemma WiredExtends(kit: MathKit, w: World, w1: World, hs: seq<nat>, w2: World, h: nat,
                     bodies: seq<nat>, cs: seq<Vec2>, frequencyHz: real, dampingRatio: real)
    requires Wired(kit, w, w1, hs, bodies, cs, frequencyHz, dampingRatio)
    requires |hs| < |bodies|
    requires h !in w1.links
    requires w2.links == w1.links[h := RingLink(kit, bodies, cs, frequencyHz, dampingRatio, |hs|)]
    ensures Wired(kit, w, w2, hs + [h], bodies, cs, frequencyHz, dampingRatio)
  {
    var hs' := hs + [h];
    forall i | 0 <= i < |hs'|
      ensures hs'[i] !in w.links && hs'[i] in w2.links
      ensures w2.links[hs'[i]] == RingLink(kit, bodies, cs, frequencyHz, dampingRatio, i)
    {
      if i < |hs| {
        assert hs'[i] == hs[i] && hs[i] in w1.links;
      }
    }
    forall i, i' | 0 <= i < i' < |hs'| ensures hs'[i] != hs'[i'] {
      if i' < |hs| {
        assert hs'[i] == hs[i] && hs'[i'] == hs[i'];
      } else {
        assert hs[i] in w1.links;
      }
    }
    forall g | g in w2.links ensures g in w.links || g in hs' {
      if g != h {
        assert g in w1.links;
      }
    }
  }

  /** What a built joint holds, given the definition and the centres. */
  predicate BuiltFrom(kit: MathKit, j: Cvj, def: CvjDef, cs: seq<Vec2>)
    requires |def.bodies| >= 2 && |cs| == |def.bodies|
  {
    j.bodies == def.bodies
    && j.base.kind == def.base.kind
    && j.base.bodyA == Some(def.bodies[0]) && j.base.bodyB == Some(def.bodies[1])
    && !j.base.collideConnected
    && j.targetLengths == TargetLengths(kit, cs)
    && j.targetVolume == Area(cs)
    && |j.normals| == |def.bodies| && (forall i :: 0 <= i < |j.normals| ==> j.normals[i] == Zero())
    && |j.distanceJoints| == |def.bodies|
    && j.frequencyHz == def.frequencyHz && j.dampingRatio == def.dampingRatio
  }

  /** The constructor. The base constructor runs first and asserts that the
      definition's two bodies differ. Fewer than three bodies, or a supplied
      joint list whose length is not the body count, is rejected before any
      distance joint is made, leaving the world as it was. Otherwise the
      supplied joints are adopted, or one distance joint per edge is created. */
  function NewCvj(kit: MathKit, w: World, def: CvjDef, center: nat -> Vec2): (r: Construction)
    requires WorldValid(w)
    requires def.base.bodyA != def.base.bodyB
    ensures WorldValid(r.world)
    ensures |def.bodies| <= 2 ==> r.outcome == Rejected(TooFewBodies)
    ensures |def.bodies| > 2 && !JointsFit(def) ==> r.outcome == Rejected(JointsMismatch)
    ensures r.outcome.Built? <==> |def.bodies| > 2 && JointsFit(def)
    ensures r.outcome.Rejected? ==> r.world == w
    ensures r.outcome.Built? ==> BuiltFrom(kit, r.outcome.joint, def, CentersOf(center, def.bodies))
    ensures r.outcome.Built? && def.joints.Some? ==>
              r.world == w && r.outcome.joint.distanceJoints == def.joints.value
    ensures r.outcome.Built? && def.joints.None? ==>
              Wired(kit, w, r.world, r.outcome.joint.distanceJoints, def.bodies, CentersOf(center, def.bodies),
                    def.frequencyHz, def.dampingRatio)
  {
    var base := NewJoint(def.base);
    if |def.bodies| <= 2 then Construction(w, Rejected(TooFewBodies))
    else if def.joints.Some? && |def.joints.value| != |def.bodies| then Construction(w, Rejected(JointsMismatch))
    else
      var n := |def.bodies|;
      var cs := CentersOf(center, def.bodies);
      var made := if def.joints.None? then CreateLinks(kit, w, def.bodies, cs, def.frequencyHz, def.dampingRatio, n)
                  else (w, def.joints.value);
      var j := Cvj(base.(bodyA := Some(def.bodies[0]), bodyB := Some(def.bodies[1]), collideConnected := false),
                   def.bodies, TargetLengths(kit, cs), Area(cs), seq(n, _ => Zero()), made.1,
                   def.frequencyHz, def.dampingRatio);
      Construction(made.0, Built(j))
  }

  /** A ring of `n >= 3` bodies without supplied joints is wired as a cycle:
      link `i` joins body `i` to body `(i + 1) mod n`, and there are exactly `n` links. */
  lemma RingIsCycle(kit: MathKit, w: World, def: CvjDef, center: nat -> Vec2, i: nat)
    requires WorldValid(w) && def.base.bodyA != def.base.bodyB
    requires |def.bodies| > 2 && def.joints.None?
    requires i < |def.bodies|
    ensures NewCvj(kit, w, def, center).outcome.Built?
    ensures |NewCvj(kit, w, def, center).outcome.joint.distanceJoints| == |def.bodies|
    ensures NewCvj(kit, w, def, center).world.links[NewCvj(kit, w, def, center).outcome.joint.distanceJoints[i]].bodyA
              == def.bodies[i]
    ensures NewCvj(kit, w, def, center).world.links[NewCvj(kit, w, def, center).outcome.joint.distanceJoints[i]].bodyB
              == def.bodies[(i + 1) % |def.bodies|]
  {
    var r := NewCvj(kit, w, def, center);
    assert Wired(kit, w, r.world, r.outcome.joint.distanceJoints, def.bodies, CentersOf(center, def.bodies),
                 def.frequencyHz, def.dampingRatio);
  }

  // ------------------------------------------------------------- destruction

  /** `world.destroyJoint` on each handle of `hs`, in order. */
  function DestroyAll(w: World, hs: seq<nat>): (r: World)
    ensures r.links == w.links - (set h | h in hs)
    ensures r.next == w.next
    ensures WorldValid(w) ==> WorldValid(r)
    decreases |hs|
  {
    if |hs| == 0 then
      assert w.links - (set h | h in hs) == w.links;
      w
    else
      var r := DestroyAll(DestroyJoint(w, hs[0]), hs[1..]);
      assert (set h | h in hs) == {hs[0]} + (set h | h in hs[1..]);
      r
  }

  /** The destructor destroys every distance joint the ring owns. */
  function Destructor(w: World, j: Cvj): (r: World)
    ensures r.links == w.links - (set h | h in j.distanceJoints)
    ensures r.next == w.next
    ensures WorldValid(w) ==> WorldValid(r)
  {
    DestroyAll(w, j.distanceJoints)
  }

  /** Creating a ring that makes its own joints and destroying it gives the
      registry back exactly as it was. */
  lemma DestroyUndoesConstruction(kit: MathKit, w: World, def: CvjDef, center: nat -> Vec2)
    requires WorldValid(w) && def.base.bodyA != def.base.bodyB
    requires |def.bodies| > 2 && def.joints.None?
    ensures NewCvj(kit, w, def, center).outcome.Built?
    ensures Destructor(NewCvj(kit, w, def, center).world, NewCvj(kit, w, def, center).outcome.joint).links == w.links
  {
    var r := NewCvj(kit, w, def, center);
    var hs := r.outcome.joint.distanceJoints;
    var cs := CentersOf(center, def.bodies);
    assert Wired(kit, w, r.world, hs, def.bodies, cs, def.frequencyHz, def.dampingRatio);
    var left := r.world.links - (set h | h in hs);
    assert left.Keys == w.links.Keys;
  }

  /** A joint as `Joint.destroy` sees it: the ring overrides the destructor;
      every other class shown keeps the base one. */
  datatype AnyJoint = Plain(joint: Joint) | Volume(ring: Cvj)

  /** `Joint.destroy` calls the joint's destructor: a no-op in the base class,
      the ring's own for a constant-volume joint. */
  function Destroy(w: World, j: AnyJoint): (r: World)
    ensures j.Plain? ==> r == w
    ensures j.Volume? ==> r.links == w.links - (set h | h in j.ring.distanceJoints) && r.next == w.next
  {
    match j
    case Plain(_) => w
    case Volume(ring) => Destructor(w, ring)
  }

  // ----------------------------------------------------------------- inflate

  /** `inflate`: the target area is scaled; nothing else changes. */
  function Inflate(j: Cvj, factor: real): (r: Cvj)
    ensures r.targetVolume == j.targetVolume * factor
    ensures r == j.(targetVolume := r.targetVolume)
  {
    j.(targetVolume := j.targetVolume * factor)
  }

  lemma InflateComposes(j: Cvj, f: real, g: real)
    ensures Inflate(Inflate(j, f), g) == Inflate(j, f * g)
  {
    assert j.targetVolume * f * g == j.targetVolume * (f * g);
  }

  lemma InflateUndone(j: Cvj, f: real)
    requires f != 0.0
    ensures Inflate(Inflate(j, f), 1.0 / f) == j
  {
    InflateComposes(j, f, 1.0 / f);
    assert f * (1.0 / f) == 1.0;
  }

  // ---------------------------------------------------------- edge correction

  /** Edge `i` of the ring: from centre `i` to its successor. */
  function Edge(cs: seq<Vec2>, i: nat): Vec2
    requires i < |cs|
  {
    Sub(cs[Next(i, |cs|)], cs[i])
  }

  /** The edge length used by `constrainEdges`: an edge shorter than EPSILON
      counts as length 1, so the length is never below EPSILON. */
  function EdgeLength(kit: MathKit, cs: seq<Vec2>, i: nat): (r: real)
    requires i < |cs|
    ensures r >= Settings.EPSILON
    ensures Length(kit, Edge(cs, i)) < Settings.EPSILON ==> r == 1.0
    ensures Length(kit, Edge(cs, i)) >= Settings.EPSILON ==> r == Length(kit, Edge(cs, i))
  {
    var dist := Length(kit, Edge(cs, i));
    if dist < Settings.EPSILON then 1.0 else dist
  }

  /** The normal stored for edge `i`: the edge turned a quarter clockwise and
      divided by its length. It is perpendicular to the edge and on its right. */
  function EdgeNormal(kit: MathKit, cs: seq<Vec2>, i: nat): (r: Vec2)
    requires i < |cs|
    ensures Dot(r, Edge(cs, i)) == 0.0
    ensures Cross(r, Edge(cs, i)) >= 0.0
  {
    var d := Edge(cs, i);
    var dist := EdgeLength(kit, cs, i);
    var k := 1.0 / dist;
    assert d.y / dist == k * d.y && -d.x / dist == k * -d.x;
    assert (k * d.y) * d.x + (k * -d.x) * d.y == 0.0;
    assert (k * d.y) * d.y - (k * -d.x) * d.x == k * (d.x * d.x + d.y * d.y);
    assert k > 0.0 && d.x * d.x + d.y * d.y >= 0.0;
    Vec2(d.y / dist, -d.x / dist)
  }

  /** With a sound square root, the normal of an edge longer than EPSILON is a unit vector. */
  lemma EdgeNormalIsUnit(kit: MathKit, cs: seq<Vec2>, i: nat)
    requires i < |cs| && SoundSqrt(kit)
    requires Length(kit, Edge(cs, i)) >= Settings.EPSILON
    ensures LengthSquared(EdgeNormal(kit, cs, i)) == 1.0
  {
    var d := Edge(cs, i);
    var len := Length(kit, d);
    LengthSquares(kit, d);
    var k := 1.0 / len;
    assert k * len == 1.0;
    calc {
      LengthSquared(EdgeNormal(kit, cs, i));
      (k * d.y) * (k * d.y) + (k * -d.x) * (k * -d.x);
      k * k * (d.x * d.x + d.y * d.y);
      k * k * (len * len);
      (k * len) * (k * len);
      1.0;
    }
  }

  /** The perimeter accumulated by the first loop over edges `0 .. k-1`. */
  function Perimeter(kit: MathKit, cs: seq<Vec2>, k: nat): (r: real)
    requires k <= |cs|
    ensures r >= (k as real) * Settings.EPSILON
    decreases k
  {
    if k == 0 then 0.0 else Perimeter(kit, cs, k - 1) + EdgeLength(kit, cs, k - 1)
  }

  /** `toExtrude`: half the area deficit spread over the perimeter. */
  function Extrusion(kit: MathKit, j: Cvj, cs: seq<Vec2>): real
    requires |cs| >= 1
  {
    0.5 * (j.targetVolume - Area(cs)) / Perimeter(kit, cs, |cs|)
  }

  /** The uncapped push applied to the successor of position `i`: the
      extrusion along the sum of the normals of edge `i` and the next edge. */
  function RawDelta(kit: MathKit, j: Cvj, cs: seq<Vec2>, i: nat): Vec2
    requires i < |cs|
  {
    Scale(Extrusion(kit, j, cs), Add(EdgeNormal(kit, cs, i), EdgeNormal(kit, cs, Next(i, |cs|))))
  }

  /** A push longer than maxLinearCorrection is scaled down to that length.
      Capping never turns the push: the result is a non-negative multiple of it. */
  function Capped(kit: MathKit, v: Vec2): (r: Vec2)
    ensures Length(kit, v) <= Settings.maxLinearCorrection ==> r == v
    ensures Cross(r, v) == 0.0 && Dot(r, v) >= 0.0
    ensures SoundSqrt(kit) ==>
              LengthSquared(r) <= Settings.maxLinearCorrection * Settings.maxLinearCorrection
  {
    var norm := Length(kit, v);
    if norm > Settings.maxLinearCorrection then
      var k := Settings.maxLinearCorrection / norm;
      LengthSquaredOfScale(k, v);
      LengthSquaredNonNegative(v);
      assert k > 0.0;
      assert Dot(Scale(k, v), v) == k * LengthSquared(v);
      assert SoundSqrt(kit) ==> norm * norm == LengthSquared(v) by {
        if SoundSqrt(kit) { LengthSquares(kit, v); }
      }
      assert k * norm == Settings.maxLinearCorrection;
      assert SoundSqrt(kit) ==> k * k * LengthSquared(v) == (k * norm) * (k * norm);
      Scale(k, v)
    else
      assert Cross(v, v) == 0.0 && Dot(v, v) == LengthSquared(v);
      LengthSquaredNonNegative(v);
      assert SoundSqrt(kit) ==> LengthSquared(v) <= Settings.maxLinearCorrection * Settings.maxLinearCorrection by {
        if SoundSqrt(kit) {
          LengthSquares(kit, v);
          SquareMonotone(norm, Settings.maxLinearCorrection);
        }
      }
      v
  }

  /** The push actually applied for edge `i`. */
  function Applied(kit: MathKit, j: Cvj, cs: seq<Vec2>, i: nat): Vec2
    requires i < |cs|
  {
    Capped(kit, RawDelta(kit, j, cs, i))
  }

  /** The second loop, first `k` iterations: each moves the successor of
      position `i`. After them, a body has been moved once, by the push of the
      edge ending at it, if that edge is among the first `k`, and not at all
      otherwise. */
  function Moved(kit: MathKit, j: Cvj, cs: seq<Vec2>, k: nat): (r: seq<Vec2>)
    requires k <= |cs|
    ensures |r| == |cs|
    ensures forall b :: 0 <= b < |cs| ==>
              r[b] == (if Prev(b, |cs|) < k then Add(cs[b], Applied(kit, j, cs, Prev(b, |cs|))) else cs[b])
    decreases k
  {
    if k == 0 then cs
    else
      var prev := Moved(kit, j, cs, k - 1);
      var b := Next(k - 1, |cs|);
      prev[b := Add(prev[b], Applied(kit, j, cs, k - 1))]
  }

  /** The `done` flag after `k` iterations: no uncapped push so far was longer
      than linearSlop. */
  function Settled(kit: MathKit, j: Cvj, cs: seq<Vec2>, k: nat): (r: bool)
    requires k <= |cs|
    ensures r <==> forall i :: 0 <= i < k ==> Length(kit, RawDelta(kit, j, cs, i)) <= Settings.linearSlop
    decreases k
  {
    if k == 0 then true
    else Settled(kit, j, cs, k - 1) && !(Length(kit, RawDelta(kit, j, cs, k - 1)) > Settings.linearSlop)
  }

  /** Result of `constrainEdges`: the joint with its new normals, the new
      centres, and whether every push was within linearSlop. */
  datatype Edged = Edged(joint: Cvj, centers: seq<Vec2>, done: bool)

  /** `constrainEdges`. The first loop measures every edge and stores its
      normal; the second pushes each body along the normals of its two edges,
      by a capped amount, and clears `done` when an uncapped push exceeds
      linearSlop. The pushes are computed from the centres before any body
      moves, so each body moves once, by the push of the edge ending at it. */
  function ConstrainEdges(kit: MathKit, j: Cvj, cs: seq<Vec2>): (r: Edged)
    requires |cs| == |j.bodies| >= 1
    ensures |r.centers| == |cs|
    ensures r.joint == j.(normals := r.joint.normals) && |r.joint.normals| == |cs|
    ensures forall i :: 0 <= i < |cs| ==> Dot(r.joint.normals[i], Edge(cs, i)) == 0.0
    ensures r.done <==> forall i :: 0 <= i < |cs| ==> Length(kit, RawDelta(kit, j, cs, i)) <= Settings.linearSlop
    ensures forall b :: 0 <= b < |cs| ==> r.centers[b] == Add(cs[b], Applied(kit, j, cs, Prev(b, |cs|)))
  {
    var n := |cs|;
    var normals := seq(n, i requires 0 <= i < n => EdgeNormal(kit, cs, i));
    Edged(j.(normals := normals), Moved(kit, j, cs, n), Settled(kit, j, cs, n))
  }

  lemma ShiftBack(a: Vec2, d: Vec2)
    ensures Sub(Add(a, d), a) == d
  {
  }

  /** How far body `b` moves: the capped push of the edge ending at it. */
  lemma Displacement(kit: MathKit, j: Cvj, cs: seq<Vec2>, b: nat)
    requires |cs| == |j.bodies| >= 1 && b < |cs|
    ensures Sub(ConstrainEdges(kit, j, cs).centers[b], cs[b]) == Applied(kit, j, cs, Prev(b, |cs|))
  {
    ShiftBack(cs[b], Applied(kit, j, cs, Prev(b, |cs|)));
  }

  /** With a sound square root, no body moves further than maxLinearCorrection. */
  lemma PushesCapped(kit: MathKit, j: Cvj, cs: seq<Vec2>)
    requires |cs| == |j.bodies| >= 1 && SoundSqrt(kit)
    ensures forall b :: 0 <= b < |cs| ==>
              LengthSquared(Sub(ConstrainEdges(kit, j, cs).centers[b], cs[b]))
                <= Settings.maxLinearCorrection * Settings.maxLinearCorrection
  {
    forall b | 0 <= b < |cs| {
      Displacement(kit, j, cs, b);
    }
  }

  /** A push within linearSlop is applied uncapped and is at most linearSlop long. */
  lemma SmallPush(kit: MathKit, v: Vec2)
    requires SoundSqrt(kit)
    requires Length(kit, v) <= Settings.linearSlop
    ensures LengthSquared(Capped(kit, v)) <= Settings.linearSlop * Settings.linearSlop
  {
    LengthSquares(kit, v);
    SquareMonotone(Length(kit, v), Settings.linearSlop);
  }

  /** When `constrainEdges` reports done, no body moved further than linearSlop. */
  lemma DoneMeansSmallMoves(kit: MathKit, j: Cvj, cs: seq<Vec2>)
    requires |cs| == |j.bodies| >= 1 && SoundSqrt(kit)
    requires ConstrainEdges(kit, j, cs).done
    ensures forall b :: 0 <= b < |cs| ==>
              LengthSquared(Sub(ConstrainEdges(kit, j, cs).centers[b], cs[b]))
                <= Settings.linearSlop * Settings.linearSlop
  {
    forall b | 0 <= b < |cs|
      ensures LengthSquared(Sub(ConstrainEdges(kit, j, cs).centers[b], cs[b]))
                <= Settings.linearSlop * Settings.linearSlop
    {
      Displacement(kit, j, cs, b);
      SmallPush(kit, RawDelta(kit, j, cs, Prev(b, |cs|)));
    }
  }

  /** On target there is nothing to extrude, so every edge's push is zero. */
  lemma NoPushOnTarget(kit: MathKit, j: Cvj, cs: seq<Vec2>, i: nat)
    requires i < |cs|
    requires Area(cs) == j.targetVolume
    ensures RawDelta(kit, j, cs, i) == Zero()
  {
    assert Extrusion(kit, j, cs) == 0.0;
  }

  /** On target, no body moves. */
  lemma StillOnTarget(kit: MathKit, j: Cvj, cs: seq<Vec2>, b: nat)
    requires |cs| == |j.bodies| >= 1 && b < |cs|
    requires Area(cs) == j.targetVolume
    ensures ConstrainEdges(kit, j, cs).centers[b] == cs[b]
  {
    var i := Prev(b, |cs|);
    NoPushOnTarget(kit, j, cs, i);
    CappedZero(kit);
    ShiftZero(cs[b]);
  }

  /** A zero push stays zero when capped. */
  lemma CappedZero(kit: MathKit)
    ensures Capped(kit, Zero()) == Zero()
  {
  }

  lemma ShiftZero(a: Vec2)
    ensures Add(a, Zero()) == a
  {
  }

  /** A ring already enclosing its target area stays where it is, and is
      done when the kit's square root of 0 is 0. */
  lemma OnTargetIsAtRest(kit: MathKit, j: Cvj, cs: seq<Vec2>)
    requires |cs| == |j.bodies| >= 1
    requires Area(cs) == j.targetVolume
    ensures ConstrainEdges(kit, j, cs).centers == cs
    ensures Length(kit, Zero()) == 0.0 ==> ConstrainEdges(kit, j, cs).done
  {
    forall i | 0 <= i < |cs| ensures RawDelta(kit, j, cs, i) == Zero() {
      NoPushOnTarget(kit, j, cs, i);
    }
    forall b | 0 <= b < |cs| ensures ConstrainEdges(kit, j, cs).centers[b] == cs[b] {
      StillOnTarget(kit, j, cs, b);
    }
  }
}
