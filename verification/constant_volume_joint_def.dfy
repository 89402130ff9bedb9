/** The definition of a constant-volume joint
    (Dynamics/Joints/ConstantVolumeJointDef.cs): the bodies of the ring, in
    order, and optionally the distance joints linking them, with the spring
    settings every link gets. The definition is a builder: bodies are added
    one at a time, with or without a ready-made joint. */
module ConstantVolumeJointDefs {
  import opened Joints

  /** `bodies` and `joints` hold handles; `joints` is `None` until the first
      `addBodyAndJoint`. */
  datatype CvjDef = CvjDef(base: JointDef, frequencyHz: real, dampingRatio: real,
                           bodies: seq<nat>, joints: Option<seq<nat>>)

  /** The constructor: tag CONSTANT_VOLUME, no bodies, no joint list, bodies
      not colliding with each other, no spring. The base definition's own
      defaults (no bodies, no user data) are JBox2D's; its file is not part of
      this model. */
  function NewCvjDef(): (d: CvjDef)
    ensures d.base.kind == CONSTANT_VOLUME && !d.base.collideConnected
    ensures d.bodies == [] && d.joints.None?
    ensures d.frequencyHz == 0.0 && d.dampingRatio == 0.0
    ensures Heads(d) && Matched(d)
  {
    CvjDef(JointDef(CONSTANT_VOLUME, None, None, false, None), 0.0, 0.0, [], None)
  }

  /** The base definition names the first body as body A and the second as body B. */
  predicate Heads(d: CvjDef) {
    (|d.bodies| >= 1 ==> d.base.bodyA == Some(d.bodies[0]))
    && (|d.bodies| >= 2 ==> d.base.bodyB == Some(d.bodies[1]))
  }

  /** Every body came with its joint: no list yet and no body, or one joint per body. */
  predicate Matched(d: CvjDef) {
    match d.joints
    case None => |d.bodies| == 0
    case Some(js) => |js| == |d.bodies|
  }

  /** What the joint constructor accepts of the joint list: none, or one per body. */
  predicate JointsFit(d: CvjDef) {
    d.joints.None? || |d.joints.value| == |d.bodies|
  }

  /** `addBody`: the body is appended; the first body added becomes body A,
      the second body B, and later ones change neither. Nothing else changes. */
  function AddBody(d: CvjDef, b: nat): (r: CvjDef)
    ensures r.bodies == d.bodies + [b]
    ensures r.joints == d.joints && r.frequencyHz == d.frequencyHz && r.dampingRatio == d.dampingRatio
    ensures r.base.kind == d.base.kind && r.base.collideConnected == d.base.collideConnected
    ensures r.base.userData == d.base.userData
    ensures |d.bodies| == 0 ==> r.base.bodyA == Some(b) && r.base.bodyB == d.base.bodyB
    ensures |d.bodies| == 1 ==> r.base.bodyA == d.base.bodyA && r.base.bodyB == Some(b)
    ensures |d.bodies| >= 2 ==> r.base == d.base
    ensures Heads(d) ==> Heads(r)
  {
    var bodies := d.bodies + [b];
    var base := if |bodies| == 1 then d.base.(bodyA := Some(b)) else d.base;
    var base' := if |bodies| == 2 then base.(bodyB := Some(b)) else base;
    d.(base := base', bodies := bodies)
  }

  /** `addBodyAndJoint`: `addBody`, then the joint is appended to the joint
      list, which is created on first use. Used alone from a fresh definition
      it keeps one joint per body. */
  function AddBodyAndJoint(d: CvjDef, b: nat, jt: nat): (r: CvjDef)
    ensures r.bodies == d.bodies + [b]
    ensures r.base == AddBody(d, b).base
    ensures d.joints.None? ==> r.joints == Some([jt])
    ensures d.joints.Some? ==> r.joints == Some(d.joints.value + [jt])
    ensures Heads(d) ==> Heads(r)
    ensures Matched(d) ==> Matched(r)
  {
    var d' := AddBody(d, b);
    var js := if d'.joints.None? then [] else d'.joints.value;
    assert [] + [jt] == [jt];
    d'.(joints := Some(js + [jt]))
  }

  /** `addBody` for each of `bs`, in order. */
  function AddBodies(d: CvjDef, bs: seq<nat>): (r: CvjDef)
    ensures r.bodies == d.bodies + bs
    ensures r.joints == d.joints
    ensures Heads(d) ==> Heads(r)
    ensures |d.bodies| >= 2 ==> r.base == d.base
    decreases |bs|
  {
    if |bs| == 0 then d
    else
      var r := AddBodies(AddBody(d, bs[0]), bs[1..]);
      assert d.bodies + [bs[0]] + bs[1..] == d.bodies + bs;
      r
  }

  /** `addBodyAndJoint` for each pair `bs[i]`, `js[i]`, in order. */
  function AddBodiesAndJoints(d: CvjDef, bs: seq<nat>, js: seq<nat>): (r: CvjDef)
    requires |bs| == |js|
    ensures r.bodies == d.bodies + bs
    ensures |bs| > 0 && d.joints.None? ==> r.joints == Some(js)
    ensures d.joints.Some? ==> r.joints == Some(d.joints.value + js)
    ensures |bs| == 0 ==> r == d
    ensures Heads(d) ==> Heads(r)
    ensures Matched(d) ==> Matched(r)
    decreases |bs|
  {
    if |bs| == 0 then
      assert d.joints.Some? ==> d.joints.value + js == d.joints.value;
      d
    else
      var r := AddBodiesAndJoints(AddBodyAndJoint(d, bs[0], js[0]), bs[1..], js[1..]);
      assert d.bodies + [bs[0]] + bs[1..] == d.bodies + bs;
      assert [js[0]] + js[1..] == js;
      assert d.joints.Some? ==> d.joints.value + [js[0]] + js[1..] == d.joints.value + js;
      r
  }

  /** A ring described body by body: the definition lists exactly those
      bodies, has no joint list, and names the first two as bodies A and B. */
  lemma {:induction false} BodiesOnly(bs: seq<nat>)
    requires |bs| >= 2
    ensures AddBodies(NewCvjDef(), bs).bodies == bs
    ensures AddBodies(NewCvjDef(), bs).joints.None?
    ensures AddBodies(NewCvjDef(), bs).base.bodyA == Some(bs[0])
    ensures AddBodies(NewCvjDef(), bs).base.bodyB == Some(bs[1])
    ensures JointsFit(AddBodies(NewCvjDef(), bs))
  {
    var r := AddBodies(NewCvjDef(), bs);
    assert Heads(r);
    assert r.bodies == [] + bs;
  }

  /** A ring deserialised body and joint at a time lists those bodies and
      exactly those joints, one per body. */
  lemma {:induction false} BodiesWithJoints(bs: seq<nat>, js: seq<nat>)
    requires |bs| == |js| >= 1
    ensures AddBodiesAndJoints(NewCvjDef(), bs, js).bodies == bs
    ensures AddBodiesAndJoints(NewCvjDef(), bs, js).joints == Some(js)
    ensures JointsFit(AddBodiesAndJoints(NewCvjDef(), bs, js))
  {
    var r := AddBodiesAndJoints(NewCvjDef(), bs, js);
    assert r.bodies == [] + bs;
  }

  /** Mixing the two: an `addBody` after the joint list exists leaves a body
      without a joint, which the joint constructor rejects. */
  lemma AddBodyUnmatches(d: CvjDef, b: nat)
    requires d.joints.Some? && Matched(d)
    ensures !JointsFit(AddBody(d, b))
  {
  }
}
