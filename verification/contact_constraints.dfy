/** Contact solver bookkeeping (Dynamics/Contacts/ContactSolver.cs): the
    constraint records, their growable arrays, `init` (which fills them from the
    contacts and seeds the impulses for warm starting) and `storeImpulses`
    (which writes the accumulated impulses back into the manifolds). */
module ContactConstraints {
  import opened Geometry
  import opened Manifolds
  import opened SolverData
  import Settings

  /** Starting length of both constraint arrays. */
  const INITIAL_NUM_CONSTRAINTS: nat := 256

  /** Per-point solver state of a velocity constraint. */
  datatype VelocityPoint = VelocityPoint(rA: Vec2, rB: Vec2, normalImpulse: real, tangentImpulse: real,
                                         normalMass: real, tangentMass: real, velocityBias: real)

  /** `ContactVelocityConstraint`. */
  datatype VelocityConstraint = VelocityConstraint(
    points: seq<VelocityPoint>, normal: Vec2, normalMass: Mat22, K: Mat22,
    indexA: nat, indexB: nat, invMassA: real, invMassB: real, invIA: real, invIB: real,
    friction: real, restitution: real, tangentSpeed: real, pointCount: nat, contactIndex: nat)

  /** `ContactPositionConstraint`. */
  datatype PositionConstraint = PositionConstraint(
    localPoints: seq<Vec2>, localNormal: Vec2, localPoint: Vec2,
    indexA: nat, indexB: nat, invMassA: real, invMassB: real,
    localCenterA: Vec2, localCenterB: Vec2, invIA: real, invIB: real,
    kind: ManifoldType, radiusA: real, radiusB: real, pointCount: nat)

  /** What the solver reads from a body: its island index, inverse mass and
      inertia, and the local centre of mass. */
  datatype BodyData = BodyData(islandIndex: nat, invMass: real, invI: real, localCenter: Vec2)

  /** What the solver reads from a contact: its manifold, the mixed friction and
      restitution, the tangent speed, the two bodies and the two shape radii. */
  datatype Contact = Contact(manifold: Manifold, friction: real, restitution: real, tangentSpeed: real,
                             bodyA: BodyData, bodyB: BodyData, radiusA: real, radiusB: real)

  /** `ContactSolverDef`. */
  datatype SolverDef = SolverDef(step: TimeStep, contacts: seq<Contact>, count: nat,
                                 positions: seq<Position>, velocities: seq<Velocity>)

  /** The solver's fields. */
  datatype Solver = Solver(step: TimeStep, positions: seq<Position>, velocities: seq<Velocity>,
                           pcs: seq<PositionConstraint>, vcs: seq<VelocityConstraint>,
                           contacts: seq<Contact>, count: nat)

  function NewVelocityPoint(): VelocityPoint {
    VelocityPoint(Zero(), Zero(), 0.0, 0.0, 0.0, 0.0, 0.0)
  }

  function NewVelocityConstraint(): (vc: VelocityConstraint)
    ensures |vc.points| == Settings.maxManifoldPoints
  {
    VelocityConstraint(seq(Settings.maxManifoldPoints, _ => NewVelocityPoint()), Zero(), MatZero(), MatZero(),
                       0, 0, 0.0, 0.0, 0.0, 0.0, 0.0, 0.0, 0.0, 0, 0)
  }

  function NewPositionConstraint(): (pc: PositionConstraint)
    ensures |pc.localPoints| == Settings.maxManifoldPoints
  {
    PositionConstraint(seq(Settings.maxManifoldPoints, _ => Zero()), Zero(), Zero(),
                       0, 0, 0.0, 0.0, Zero(), Zero(), 0.0, 0.0, Circles, 0.0, 0.0, 0)
  }

  /** Every constraint record has room for `maxManifoldPoints` points. */
  predicate Shaped(vcs: seq<VelocityConstraint>, pcs: seq<PositionConstraint>) {
    (forall i :: 0 <= i < |vcs| ==> |vcs[i].points| == Settings.maxManifoldPoints)
    && (forall i :: 0 <= i < |pcs| ==> |pcs[i].localPoints| == Settings.maxManifoldPoints)
  }

  /** The constructor: both arrays hold `INITIAL_NUM_CONSTRAINTS` fresh records. */
  function NewSolver(): (s: Solver)
    ensures |s.vcs| == INITIAL_NUM_CONSTRAINTS && |s.pcs| == INITIAL_NUM_CONSTRAINTS
    ensures Shaped(s.vcs, s.pcs)
  {
    Solver(TimeStep(0.0, 0.0, 0.0, false), [], [],
           seq(INITIAL_NUM_CONSTRAINTS, _ => NewPositionConstraint()),
           seq(INITIAL_NUM_CONSTRAINTS, _ => NewVelocityConstraint()), [], 0)
  }

  /** The growth rule of `init`: an array shorter than `count` is replaced by one
      of length `max(2 * oldLength, count)` holding the old entries followed by
      blank ones; an array that is long enough is kept as it is. */
  function Grow<T>(arr: seq<T>, count: nat, blank: T): (r: seq<T>)
    ensures |arr| >= count ==> r == arr
    ensures |arr| < count ==> |r| >= 2 * |arr| && (|r| == 2 * |arr| || |r| == count)
    ensures |r| >= count && |r| >= |arr|
    ensures r[..|arr|] == arr
    ensures forall i :: |arr| <= i < |r| ==> r[i] == blank
  {
    if |arr| >= count then arr
    else
      var n := if 2 * |arr| > count then 2 * |arr| else count;
      arr + seq(n - |arr|, _ => blank)
  }

  /** Growing twice for the same count grows once: a grown array is long enough. */
  lemma GrowIdempotent<T>(arr: seq<T>, count: nat, blank: T)
    ensures Grow(Grow(arr, count, blank), count, blank) == Grow(arr, count, blank)
  {
  }

  /** A contact `init` can read: its manifold is well formed and has points. */
  predicate InitReady(c: Contact) {
    ValidManifold(c.manifold) && c.manifold.pointCount > 0
  }

  /** A velocity point seeded from manifold point `cp`: impulses are the stored
      ones scaled by `dtRatio` when warm starting and zero otherwise, and the
      per-point scratch state is zero. */
  predicate Seeded(vp: VelocityPoint, cp: ManifoldPoint, step: TimeStep) {
    (step.warmStarting ==> (vp.normalImpulse == step.dtRatio * cp.normalImpulse
                            && vp.tangentImpulse == step.dtRatio * cp.tangentImpulse))
    && (!step.warmStarting ==> vp.normalImpulse == 0.0 && vp.tangentImpulse == 0.0)
    && vp.rA == Zero() && vp.rB == Zero()
    && vp.normalMass == 0.0 && vp.tangentMass == 0.0 && vp.velocityBias == 0.0
  }

  /** The seed of one velocity point: the stored impulses scaled by `dtRatio`
      when warm starting, zero otherwise; the per-point scratch state zeroed. */
  function SeedPoint(vp: VelocityPoint, cp: ManifoldPoint, step: TimeStep): (r: VelocityPoint)
    ensures Seeded(r, cp, step)
  {
    var vp := if step.warmStarting
      then vp.(normalImpulse := step.dtRatio * cp.normalImpulse, tangentImpulse := step.dtRatio * cp.tangentImpulse)
      else vp.(normalImpulse := 0.0, tangentImpulse := 0.0);
    vp.(rA := Zero(), rB := Zero(), normalMass := 0.0, tangentMass := 0.0, velocityBias := 0.0)
  }

  /** Velocity constraint `r` carries contact `c`'s data as constraint `i`:
      the mixed friction and restitution, the tangent speed, both bodies'
      island indices, inverse masses and inverse inertias, the contact index and
      the manifold's point count, with both block matrices cleared. */
  predicate VelocityCopied(r: VelocityConstraint, c: Contact, i: nat) {
    r.friction == c.friction && r.restitution == c.restitution && r.tangentSpeed == c.tangentSpeed
    && r.indexA == c.bodyA.islandIndex && r.indexB == c.bodyB.islandIndex
    && r.invMassA == c.bodyA.invMass && r.invMassB == c.bodyB.invMass
    && r.invIA == c.bodyA.invI && r.invIB == c.bodyB.invI
    && r.contactIndex == i && r.pointCount == c.manifold.pointCount
    && r.K == MatZero() && r.normalMass == MatZero()
  }

  /** Position constraint `r` carries contact `c`'s data: both bodies' island
      indices, inverse masses, local centres and inverse inertias, the
      manifold's local normal, local point, kind and point count, and the two
      shape radii. */
  predicate PositionCopied(r: PositionConstraint, c: Contact) {
    r.indexA == c.bodyA.islandIndex && r.indexB == c.bodyB.islandIndex
    && r.invMassA == c.bodyA.invMass && r.invMassB == c.bodyB.invMass
    && r.localCenterA == c.bodyA.localCenter && r.localCenterB == c.bodyB.localCenter
    && r.invIA == c.bodyA.invI && r.invIB == c.bodyB.invI
    && r.localNormal == c.manifold.localNormal && r.localPoint == c.manifold.localPoint
    && r.kind == c.manifold.kind && r.pointCount == c.manifold.pointCount
    && r.radiusA == c.radiusA && r.radiusB == c.radiusB
  }

  /** `init`'s update of velocity constraint `i`. The normal and the points
      beyond the manifold's count keep whatever the record held before. */
  function InitVelocity(vc: VelocityConstraint, c: Contact, i: nat, step: TimeStep): (r: VelocityConstraint)
    requires |vc.points| == Settings.maxManifoldPoints && ValidManifold(c.manifold)
    ensures |r.points| == |vc.points| && r.normal == vc.normal
    ensures VelocityCopied(r, c, i)
    ensures forall j :: 0 <= j < c.manifold.pointCount ==> Seeded(r.points[j], c.manifold.points[j], step)
    ensures forall j :: c.manifold.pointCount <= j < |r.points| ==> r.points[j] == vc.points[j]
  {
    var n := c.manifold.pointCount;
    vc.(friction := c.friction, restitution := c.restitution, tangentSpeed := c.tangentSpeed,
        indexA := c.bodyA.islandIndex, indexB := c.bodyB.islandIndex,
        invMassA := c.bodyA.invMass, invMassB := c.bodyB.invMass,
        invIA := c.bodyA.invI, invIB := c.bodyB.invI,
        contactIndex := i, pointCount := n, K := MatZero(), normalMass := MatZero(),
        points := seq(|vc.points|, j requires 0 <= j < |vc.points| =>
                        if j < n then SeedPoint(vc.points[j], c.manifold.points[j], step) else vc.points[j]))
  }

  /** `init`'s update of position constraint `i`. */
  function InitPosition(pc: PositionConstraint, c: Contact): (r: PositionConstraint)
    requires |pc.localPoints| == Settings.maxManifoldPoints && ValidManifold(c.manifold)
    ensures |r.localPoints| == |pc.localPoints|
    ensures PositionCopied(r, c)
    ensures forall j :: 0 <= j < c.manifold.pointCount ==> r.localPoints[j] == c.manifold.points[j].localPoint
    ensures forall j :: c.manifold.pointCount <= j < |r.localPoints| ==> r.localPoints[j] == pc.localPoints[j]
  {
    var n := c.manifold.pointCount;
    pc.(indexA := c.bodyA.islandIndex, indexB := c.bodyB.islandIndex,
        invMassA := c.bodyA.invMass, invMassB := c.bodyB.invMass,
        localCenterA := c.bodyA.localCenter, localCenterB := c.bodyB.localCenter,
        invIA := c.bodyA.invI, invIB := c.bodyB.invI,
        localNormal := c.manifold.localNormal, localPoint := c.manifold.localPoint,
        pointCount := n, radiusA := c.radiusA, radiusB := c.radiusB, kind := c.manifold.kind,
        localPoints := seq(|pc.localPoints|, j requires 0 <= j < |pc.localPoints| =>
                             if j < n then c.manifold.points[j].localPoint else pc.localPoints[j]))
  }

  /** `init`: take the step, count and arrays from the definition, grow the
      constraint arrays, then fill the first `count` records from the contacts. */
  function Init(s: Solver, def: SolverDef): (r: Solver)
    requires Shaped(s.vcs, s.pcs)
    requires def.count <= |def.contacts|
    requires forall i :: 0 <= i < def.count ==> InitReady(def.contacts[i])
    ensures r.step == def.step && r.count == def.count && r.contacts == def.contacts
    ensures r.positions == def.positions && r.velocities == def.velocities
    ensures |r.vcs| == |Grow(s.vcs, def.count, NewVelocityConstraint())|
    ensures |r.pcs| == |Grow(s.pcs, def.count, NewPositionConstraint())|
    ensures Shaped(r.vcs, r.pcs)
    ensures forall i :: def.count <= i < |s.vcs| ==> r.vcs[i] == s.vcs[i]
    ensures forall i :: def.count <= i < |s.pcs| ==> r.pcs[i] == s.pcs[i]
    // the constraint-level fields
    ensures forall i :: 0 <= i < def.count ==>
      r.vcs[i].contactIndex == i && r.vcs[i].pointCount == def.contacts[i].manifold.pointCount
      && r.pcs[i].pointCount == def.contacts[i].manifold.pointCount
      && r.vcs[i].K == MatZero() && r.vcs[i].normalMass == MatZero()
      && r.vcs[i].indexA == r.pcs[i].indexA == def.contacts[i].bodyA.islandIndex
      && r.vcs[i].indexB == r.pcs[i].indexB == def.contacts[i].bodyB.islandIndex
    // and the rest of each contact's data
    ensures forall i :: 0 <= i < def.count ==>
      VelocityCopied(r.vcs[i], def.contacts[i], i) && PositionCopied(r.pcs[i], def.contacts[i])
  {
    var vcs := Grow(s.vcs, def.count, NewVelocityConstraint());
    var pcs := Grow(s.pcs, def.count, NewPositionConstraint());
    var vcs' := seq(|vcs|, i requires 0 <= i < |vcs| =>
                  if i < def.count then assert InitReady(def.contacts[i]); InitVelocity(vcs[i], def.contacts[i], i, def.step)
                  else vcs[i]);
    var pcs' := seq(|pcs|, i requires 0 <= i < |pcs| =>
                  if i < def.count then assert InitReady(def.contacts[i]); InitPosition(pcs[i], def.contacts[i])
                  else pcs[i]);
    Solver(def.step, def.positions, def.velocities, pcs', vcs', def.contacts, def.count)
  }

  /** `init` seeds point `j` of constraint `i` from the manifold of contact `i`:
      impulses scaled by `dtRatio` when warm starting and zero otherwise, scratch
      state zeroed, and the position constraint given the manifold's local point. */
  lemma InitSeedsPoint(s: Solver, def: SolverDef, i: nat, j: nat)
    requires Shaped(s.vcs, s.pcs)
    requires def.count <= |def.contacts|
    requires forall i :: 0 <= i < def.count ==> InitReady(def.contacts[i])
    requires i < def.count && j < def.contacts[i].manifold.pointCount
    ensures var r := Init(s, def);
            j < |r.vcs[i].points| && j < |r.pcs[i].localPoints| && j < |def.contacts[i].manifold.points|
            && Seeded(r.vcs[i].points[j], def.contacts[i].manifold.points[j], def.step)
            && r.pcs[i].localPoints[j] == def.contacts[i].manifold.points[j].localPoint
  {
    var vcs := Grow(s.vcs, def.count, NewVelocityConstraint());
    var pcs := Grow(s.pcs, def.count, NewPositionConstraint());
    assert InitReady(def.contacts[i]);
    assert Init(s, def).vcs[i] == InitVelocity(vcs[i], def.contacts[i], i, def.step);
    assert Init(s, def).pcs[i] == InitPosition(pcs[i], def.contacts[i]);
  }

  /** One constraint's `storeImpulses` step: its first `pointCount` accumulated
      impulses are written into the manifold of contact `contactIndex`. */
  function StoreOne(contacts: seq<Contact>, vc: VelocityConstraint): (r: seq<Contact>)
    requires vc.contactIndex < |contacts| && vc.pointCount <= |vc.points|
    requires vc.pointCount <= |contacts[vc.contactIndex].manifold.points|
    ensures |r| == |contacts|
    ensures forall k :: 0 <= k < |contacts| && k != vc.contactIndex ==> r[k] == contacts[k]
  {
    var c := contacts[vc.contactIndex];
    var pts := c.manifold.points;
    var pts' := seq(|pts|, j requires 0 <= j < |pts| =>
                      if j < vc.pointCount
                      then pts[j].(normalImpulse := vc.points[j].normalImpulse,
                                   tangentImpulse := vc.points[j].tangentImpulse)
                      else pts[j]);
    contacts[vc.contactIndex := c.(manifold := c.manifold.(points := pts'))]
  }

  /** The constraints `storeImpulses` can write back: each names an existing
      contact, and has no more points than its own record and that manifold. */
  predicate Storable(contacts: seq<Contact>, vcs: seq<VelocityConstraint>, n: nat) {
    n <= |vcs|
    && forall i :: 0 <= i < n ==>
         vcs[i].contactIndex < |contacts| && vcs[i].pointCount <= |vcs[i].points|
         && vcs[i].pointCount <= |contacts[vcs[i].contactIndex].manifold.points|
  }

  /** `b` differs from `a` at most in the impulses cached in its manifold points. */
  predicate OnlyImpulsesDiffer(a: Contact, b: Contact) {
    b == a.(manifold := a.manifold.(points := b.manifold.points))
    && |b.manifold.points| == |a.manifold.points|
    && forall j :: 0 <= j < |a.manifold.points| ==>
         b.manifold.points[j] == a.manifold.points[j].(normalImpulse := b.manifold.points[j].normalImpulse,
                                                        tangentImpulse := b.manifold.points[j].tangentImpulse)
  }

  /** `storeImpulses` over the first `n` constraints, in order. Only impulses
      change, and only in contacts some constraint names. */
  function StoreImpulses(contacts: seq<Contact>, vcs: seq<VelocityConstraint>, n: nat): (r: seq<Contact>)
    requires Storable(contacts, vcs, n)
    ensures |r| == |contacts|
    ensures forall k :: 0 <= k < |contacts| ==> OnlyImpulsesDiffer(contacts[k], r[k])
    ensures forall k :: 0 <= k < |contacts| ==> InitReady(r[k]) == InitReady(contacts[k])
    ensures forall k :: 0 <= k < |contacts| && !Names(vcs, n, k) ==> r[k] == contacts[k]
    decreases n
  {
    if n == 0 then contacts
    else
      var prev := StoreImpulses(contacts, vcs, n - 1);
      var r := StoreOne(prev, vcs[n - 1]);
      assert OnlyImpulsesDiffer(prev[vcs[n - 1].contactIndex], r[vcs[n - 1].contactIndex]);
      r
  }

  /** Some constraint among the first `n` names contact `k`. */
  predicate Names(vcs: seq<VelocityConstraint>, n: nat, k: nat)
    requires n <= |vcs|
  {
    exists i :: 0 <= i < n && vcs[i].contactIndex == k
  }

  /** Constraint `i` belongs to contact `i`, as `init` arranges. */
  predicate Indexed(vcs: seq<VelocityConstraint>, n: nat)
    requires n <= |vcs|
  {
    forall i :: 0 <= i < n ==> vcs[i].contactIndex == i
  }

  /** When constraint `i` belongs to contact `i`, `storeImpulses` writes exactly
      the first `pointCount` impulses of constraint `i` into contact `i`'s
      manifold and leaves its other points alone. */
  lemma {:induction false} StoreImpulsesWrites(contacts: seq<Contact>, vcs: seq<VelocityConstraint>, n: nat, i: nat, j: nat)
    requires Storable(contacts, vcs, n) && Indexed(vcs, n)
    requires i < n && i < |contacts| && j < |contacts[i].manifold.points|
    ensures var r := StoreImpulses(contacts, vcs, n);
            j < |r[i].manifold.points|
            && (j < vcs[i].pointCount ==>
                  r[i].manifold.points[j].normalImpulse == vcs[i].points[j].normalImpulse
                  && r[i].manifold.points[j].tangentImpulse == vcs[i].points[j].tangentImpulse)
            && (j >= vcs[i].pointCount ==> r[i].manifold.points[j] == contacts[i].manifold.points[j])
    decreases n
  {
    var prev := StoreImpulses(contacts, vcs, n - 1);
    if i == n - 1 {
      assert prev[i] == contacts[i];
    } else {
      StoreImpulsesWrites(contacts, vcs, n - 1, i, j);
      assert vcs[n - 1].contactIndex == n - 1;
    }
  }

  /** The store / re-seed round trip: after `storeImpulses`, an `init` with warm
      starting and `dtRatio` 1 over the same contacts seeds every point the
      constraint used with exactly the impulses it had accumulated. */
  lemma StoreThenInitRoundTrip(s: Solver, step: TimeStep, i: nat, j: nat)
    requires Shaped(s.vcs, s.pcs)
    requires s.count <= |s.contacts| && Storable(s.contacts, s.vcs, s.count) && Indexed(s.vcs, s.count)
    requires forall k :: 0 <= k < s.count ==> InitReady(s.contacts[k])
    requires forall k :: 0 <= k < s.count ==> s.vcs[k].pointCount <= s.contacts[k].manifold.pointCount
    requires step.warmStarting && step.dtRatio == 1.0
    requires i < s.count && j < s.vcs[i].pointCount
    ensures var stored := StoreImpulses(s.contacts, s.vcs, s.count);
            var r := Init(s, SolverDef(step, stored, s.count, s.positions, s.velocities));
            j < |r.vcs[i].points|
            && r.vcs[i].points[j].normalImpulse == s.vcs[i].points[j].normalImpulse
            && r.vcs[i].points[j].tangentImpulse == s.vcs[i].points[j].tangentImpulse
  {
    var stored := StoreImpulses(s.contacts, s.vcs, s.count);
    var def := SolverDef(step, stored, s.count, s.positions, s.velocities);
    assert OnlyImpulsesDiffer(s.contacts[i], stored[i]);
    StoreImpulsesWrites(s.contacts, s.vcs, s.count, i, j);
    InitSeedsPoint(s, def, i, j);
  }
}
