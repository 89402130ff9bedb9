/** The two-point block solver of `solveVelocityConstraints`
    (Dynamics/Contacts/ContactSolver.cs). With `a` the accumulated normal
    impulses, the new impulses `x` must satisfy the mixed linear complementarity
    problem `w = K x + b'`, `x >= 0`, `w >= 0`, `x_i w_i = 0`, where
    `b' = (vn - velocityBias) - K a`. The solver tries four complementarity
    patterns in a fixed order and takes the first whose candidate is acceptable. */
module ContactBlock {
  import opened Geometry

  /** Which pattern was accepted. */
  datatype BlockCase =
    | BothActive     // case 1: vn = 0 at both points
    | FirstActive    // case 2: x2 = 0, vn1 = 0
    | SecondActive   // case 3: x1 = 0, vn2 = 0
    | NoneActive     // case 4: x = 0

  /** The outcome: an accepted pattern with its impulses, or nothing accepted. */
  datatype BlockOutcome = Accepted(kind: BlockCase, x: Vec2) | Rejected

  /** Case 1 candidate: `x = -normalMass b'`. */
  function Candidate1(b: Vec2, normalMass: Mat22): Vec2 {
    Scale(-1.0, MatMul(normalMass, b))
  }

  /** Case 2 candidate: only the first point pushes, with its own effective mass. */
  function Candidate2(b: Vec2, mass1: real): Vec2 { Vec2(-mass1 * b.x, 0.0) }

  /** Case 3 candidate: only the second point pushes. */
  function Candidate3(b: Vec2, mass2: real): Vec2 { Vec2(0.0, -mass2 * b.y) }

  predicate Accepts1(b: Vec2, normalMass: Mat22) {
    var x := Candidate1(b, normalMass);
    x.x >= 0.0 && x.y >= 0.0
  }

  /** Case 2 needs a non-negative first impulse and a separating second point. */
  predicate Accepts2(b: Vec2, K: Mat22, mass1: real) {
    var x := Candidate2(b, mass1);
    x.x >= 0.0 && K.ex.y * x.x + b.y >= 0.0
  }

  /** Case 3 needs a non-negative second impulse and a separating first point. */
  predicate Accepts3(b: Vec2, K: Mat22, mass2: real) {
    var x := Candidate3(b, mass2);
    x.y >= 0.0 && K.ey.x * x.y + b.x >= 0.0
  }

  /** Case 4 needs both points separating with no impulse. */
  predicate Accepts4(b: Vec2) { b.x >= 0.0 && b.y >= 0.0 }

  /** The enumeration: cases 1, 2, 3, 4 in that order, the first acceptable one
      wins; when none is acceptable the outcome is `Rejected`. */
  function BlockSolve(b: Vec2, K: Mat22, normalMass: Mat22, mass1: real, mass2: real): (r: BlockOutcome)
    ensures r.Accepted? ==> r.x.x >= 0.0 && r.x.y >= 0.0
    ensures r == Accepted(BothActive, Candidate1(b, normalMass)) <==> Accepts1(b, normalMass)
    ensures r == Accepted(FirstActive, Candidate2(b, mass1)) <==> !Accepts1(b, normalMass) && Accepts2(b, K, mass1)
    ensures r == Accepted(SecondActive, Candidate3(b, mass2)) <==>
              !Accepts1(b, normalMass) && !Accepts2(b, K, mass1) && Accepts3(b, K, mass2)
    ensures r == Accepted(NoneActive, Zero()) <==>
              !Accepts1(b, normalMass) && !Accepts2(b, K, mass1) && !Accepts3(b, K, mass2) && Accepts4(b)
    ensures r == Rejected <==>
              !Accepts1(b, normalMass) && !Accepts2(b, K, mass1) && !Accepts3(b, K, mass2) && !Accepts4(b)
  {
    if Accepts1(b, normalMass) then Accepted(BothActive, Candidate1(b, normalMass))
    else if Accepts2(b, K, mass1) then Accepted(FirstActive, Candidate2(b, mass1))
    else if Accepts3(b, K, mass2) then Accepted(SecondActive, Candidate3(b, mass2))
    else if Accepts4(b) then Accepted(NoneActive, Zero())
    else Rejected
  }

  /** `x` solves the complementarity problem for `K` and `b`. */
  predicate SolvesLcp(K: Mat22, b: Vec2, x: Vec2) {
    var w := Add(MatMul(K, x), b);
    x.x >= 0.0 && x.y >= 0.0 && w.x >= 0.0 && w.y >= 0.0
    && x.x * w.x == 0.0 && x.y * w.y == 0.0
  }

  /** Multiplying by a product is multiplying twice. */
  lemma MatMulProduct(A: Mat22, B: Mat22, v: Vec2)
    ensures MatMul(MatProduct(A, B), v) == MatMul(A, MatMul(B, v))
  {
    var l := MatMul(MatProduct(A, B), v);
    var r := MatMul(A, MatMul(B, v));
    assert l.x == r.x by {
      calc {
        l.x;
        (A.ex.x * B.ex.x + A.ey.x * B.ex.y) * v.x + (A.ex.x * B.ey.x + A.ey.x * B.ey.y) * v.y;
        A.ex.x * (B.ex.x * v.x + B.ey.x * v.y) + A.ey.x * (B.ex.y * v.x + B.ey.y * v.y);
        r.x;
      }
    }
    assert l.y == r.y by {
      calc {
        l.y;
        (A.ex.y * B.ex.x + A.ey.y * B.ex.y) * v.x + (A.ex.y * B.ey.x + A.ey.y * B.ey.y) * v.y;
        A.ex.y * (B.ex.x * v.x + B.ey.x * v.y) + A.ey.y * (B.ex.y * v.x + B.ey.y * v.y);
        r.y;
      }
    }
  }

  /** Every accepted outcome solves the complementarity problem, provided the
      block mass inverts `K` and each point's own mass inverts its diagonal
      entry of `K` (which is how the solver prepares them). */
  lemma AcceptedSolvesLcp(b: Vec2, K: Mat22, normalMass: Mat22, mass1: real, mass2: real)
    requires IsIdentity(MatProduct(K, normalMass))
    requires mass1 * K.ex.x == 1.0 && mass2 * K.ey.y == 1.0
    ensures BlockSolve(b, K, normalMass, mass1, mass2).Accepted? ==>
              SolvesLcp(K, b, BlockSolve(b, K, normalMass, mass1, mass2).x)
  {
    var r := BlockSolve(b, K, normalMass, mass1, mass2);
    if r.Accepted? {
      match r.kind
      case BothActive => BothActiveSolves(b, K, normalMass);
      case FirstActive => FirstActiveSolves(b, K, mass1);
      case SecondActive => SecondActiveSolves(b, K, mass2);
      case NoneActive => NoneActiveSolves(b, K);
    }
  }

  /** Case 1: both points reach zero normal velocity. */
  lemma BothActiveSolves(b: Vec2, K: Mat22, normalMass: Mat22)
    requires IsIdentity(MatProduct(K, normalMass)) && Accepts1(b, normalMass)
    ensures SolvesLcp(K, b, Candidate1(b, normalMass))
  {
    MatMulProduct(K, normalMass, b);
    assert MatMul(MatProduct(K, normalMass), b) == b;
    var x := Candidate1(b, normalMass);
    assert MatMul(K, x) == Scale(-1.0, MatMul(K, MatMul(normalMass, b)));
    assert Add(MatMul(K, x), b) == Zero();
  }

  /** Case 2: the first point reaches zero normal velocity, the second separates. */
  lemma FirstActiveSolves(b: Vec2, K: Mat22, mass1: real)
    requires mass1 * K.ex.x == 1.0 && Accepts2(b, K, mass1)
    ensures SolvesLcp(K, b, Candidate2(b, mass1))
  {
    var x := Candidate2(b, mass1);
    assert K.ex.x * x.x == -(mass1 * K.ex.x) * b.x;
    assert Add(MatMul(K, x), b).x == 0.0;
  }

  /** Case 3: the second point reaches zero normal velocity, the first separates. */
  lemma SecondActiveSolves(b: Vec2, K: Mat22, mass2: real)
    requires mass2 * K.ey.y == 1.0 && Accepts3(b, K, mass2)
    ensures SolvesLcp(K, b, Candidate3(b, mass2))
  {
    var x := Candidate3(b, mass2);
    assert K.ey.y * x.y == -(mass2 * K.ey.y) * b.y;
    assert Add(MatMul(K, x), b).y == 0.0;
  }

  /** Case 4: both points separate without any impulse. */
  lemma NoneActiveSolves(b: Vec2, K: Mat22)
    requires Accepts4(b)
    ensures SolvesLcp(K, b, Zero())
  {
    assert Add(MatMul(K, Zero()), b) == b;
  }
}
