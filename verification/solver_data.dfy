/** Per-step data shared by the contact solver and the joints: the time step
    and the island's position and velocity arrays, indexed by island index. */
module SolverData {
  import opened Geometry

  /** `TimeStep`: step length, its inverse, the ratio to the previous step and
      whether impulses from the previous step are reused. */
  datatype TimeStep = TimeStep(dt: real, inv_dt: real, dtRatio: real, warmStarting: bool)

  /** Centre of mass and angle of one body. */
  datatype Position = Position(c: Vec2, a: real)

  /** Linear and angular velocity of one body. */
  datatype Velocity = Velocity(v: Vec2, w: real)

  /** The velocities of the two bodies a constraint acts on. */
  datatype BodyPair = BodyPair(vA: Vec2, wA: real, vB: Vec2, wB: real)

  /** An impulse `p` applied at offsets `rA`, `rB`: A is pushed back by `-p`,
      B forward by `p`, each scaled by its inverse mass and inverse inertia. */
  function ApplyImpulse(s: BodyPair, mA: real, iA: real, mB: real, iB: real,
                        rA: Vec2, rB: Vec2, p: Vec2): (r: BodyPair)
    ensures mB * (r.vA.x - s.vA.x) + mA * (r.vB.x - s.vB.x) == 0.0
    ensures mB * (r.vA.y - s.vA.y) + mA * (r.vB.y - s.vB.y) == 0.0
    ensures p == Zero() ==> r == s
  {
    BodyPair(Sub(s.vA, Scale(mA, p)), s.wA - iA * Cross(rA, p),
             Add(s.vB, Scale(mB, p)), s.wB + iB * Cross(rB, p))
  }

  /** Linear momentum of the pair, weighted by the other body's inverse mass so
      that it stays meaningful when a body is static (inverse mass 0):
      `mB * vA + mA * vB`. Every impulse leaves it unchanged. */
  function WeightedMomentum(s: BodyPair, mA: real, mB: real): Vec2 {
    Add(Scale(mB, s.vA), Scale(mA, s.vB))
  }

  /** An impulse keeps the weighted linear momentum of the pair. */
  lemma ApplyImpulseConservesMomentum(s: BodyPair, mA: real, iA: real, mB: real, iB: real,
                                      rA: Vec2, rB: Vec2, p: Vec2)
    ensures WeightedMomentum(ApplyImpulse(s, mA, iA, mB, iB, rA, rB, p), mA, mB) == WeightedMomentum(s, mA, mB)
  {
  }

  /** The velocities of bodies `a` and `b`. */
  function PairOf(vel: seq<Velocity>, a: nat, b: nat): BodyPair
    requires a < |vel| && b < |vel|
  {
    BodyPair(vel[a].v, vel[a].w, vel[b].v, vel[b].w)
  }

  /** Write a pair back into bodies `a` and `b` (A first, then B, as the solvers do). */
  function WriteBack(vel: seq<Velocity>, a: nat, b: nat, s: BodyPair): (r: seq<Velocity>)
    requires a < |vel| && b < |vel| && a != b
    ensures |r| == |vel|
    ensures r[a] == Velocity(s.vA, s.wA) && r[b] == Velocity(s.vB, s.wB)
    ensures forall k :: 0 <= k < |vel| && k != a && k != b ==> r[k] == vel[k]
  {
    vel[a := Velocity(s.vA, s.wA)][b := Velocity(s.vB, s.wB)]
  }

  /** Reading back the pair just written gives it again. */
  lemma WriteBackReadsBack(vel: seq<Velocity>, a: nat, b: nat, s: BodyPair)
    requires a < |vel| && b < |vel| && a != b
    ensures PairOf(WriteBack(vel, a, b, s), a, b) == s
  {
  }
}
