/** Small linear-algebra kit over the reals: vectors, rotations, transforms,
    2x2 matrices and the scalar helpers the solver uses.
    The engine's own vector and matrix classes are not part of this model; the
    formulas below are the standard ones. The transcendental helpers (square
    root, sine, cosine) are left uninterpreted: they are fields of a `MathKit`,
    and a property that depends on the square root says so through `SoundSqrt`. */
module Geometry {
  import Settings

  datatype Vec2 = Vec2(x: real, y: real)

  function Zero(): Vec2 { Vec2(0.0, 0.0) }

  function Add(a: Vec2, b: Vec2): Vec2 { Vec2(a.x + b.x, a.y + b.y) }

  function Sub(a: Vec2, b: Vec2): Vec2 { Vec2(a.x - b.x, a.y - b.y) }

  function Scale(k: real, v: Vec2): Vec2 { Vec2(k * v.x, k * v.y) }

  function Neg(v: Vec2): Vec2 { Vec2(-v.x, -v.y) }

  function Dot(a: Vec2, b: Vec2): real { a.x * b.x + a.y * b.y }

  /** 2D cross product of two vectors (a scalar). */
  function Cross(a: Vec2, b: Vec2): real { a.x * b.y - a.y * b.x }

  /** Cross product of a vector with a scalar: (s * v.y, -s * v.x). */
  function CrossVS(v: Vec2, s: real): Vec2 { Vec2(s * v.y, -s * v.x) }

  /** Cross product of a scalar with a vector: (-s * v.y, s * v.x). */
  function CrossSV(s: real, v: Vec2): Vec2 { Vec2(-s * v.y, s * v.x) }

  function LengthSquared(v: Vec2): real { v.x * v.x + v.y * v.y }

  function DistanceSquared(a: Vec2, b: Vec2): real { LengthSquared(Sub(b, a)) }

  /** A rotation stored as its sine and cosine. */
  datatype Rot = Rot(s: real, c: real)

  predicate UnitRot(q: Rot) { q.s * q.s + q.c * q.c == 1.0 }

  function RotMul(q: Rot, v: Vec2): Vec2 {
    Vec2(q.c * v.x - q.s * v.y, q.s * v.x + q.c * v.y)
  }

  /** Inverse rotation (the transpose). */
  function RotMulTrans(q: Rot, v: Vec2): Vec2 {
    Vec2(q.c * v.x + q.s * v.y, -q.s * v.x + q.c * v.y)
  }

  /** A rigid transform: rotate, then translate. */
  datatype Transform = Transform(p: Vec2, q: Rot)

  function XfMul(xf: Transform, v: Vec2): Vec2 { Add(RotMul(xf.q, v), xf.p) }

  /** A 2x2 matrix given by its columns. */
  datatype Mat22 = Mat22(ex: Vec2, ey: Vec2)

  function MatZero(): Mat22 { Mat22(Zero(), Zero()) }

  function MatMul(m: Mat22, v: Vec2): Vec2 {
    Vec2(m.ex.x * v.x + m.ey.x * v.y, m.ex.y * v.x + m.ey.y * v.y)
  }

  function Det(m: Mat22): real { m.ex.x * m.ey.y - m.ey.x * m.ex.y }

  predicate IsIdentity(m: Mat22) {
    m.ex.x == 1.0 && m.ex.y == 0.0 && m.ey.x == 0.0 && m.ey.y == 1.0
  }

  function MatProduct(a: Mat22, b: Mat22): Mat22 {
    Mat22(MatMul(a, b.ex), MatMul(a, b.ey))
  }

  /** Matrix inverse; the zero matrix when the determinant is zero. */
  function Invert(m: Mat22): (r: Mat22)
    ensures Det(m) != 0.0 ==> IsIdentity(MatProduct(m, r))
    ensures Det(m) == 0.0 ==> r == MatZero()
  {
    var det := Det(m);
    var inv := if det != 0.0 then 1.0 / det else 0.0;
    var r := Mat22(Vec2(inv * m.ey.y, -inv * m.ex.y), Vec2(-inv * m.ey.x, inv * m.ex.x));
    if det != 0.0 then
      assert inv * det == 1.0;
      assert m.ex.x * (inv * m.ey.y) + m.ey.x * (-inv * m.ex.y) == inv * det;
      assert m.ex.y * (-inv * m.ey.x) + m.ey.y * (inv * m.ex.x) == inv * det;
      r
    else r
  }

  function Min(a: real, b: real): real { if a < b then a else b }

  function Max(a: real, b: real): real { if a > b then a else b }

  function Abs(a: real): real { if a < 0.0 then -a else a }

  /** `a` pushed into `[lo, hi]`, computed as max(lo, min(a, hi)). */
  function Clamp(a: real, lo: real, hi: real): (r: real)
    ensures lo <= hi ==> lo <= r <= hi
    ensures lo <= a <= hi ==> r == a
    ensures lo <= hi && a < lo ==> r == lo
    ensures lo <= hi && a > hi ==> r == hi
  {
    Max(lo, Min(a, hi))
  }

  /** The transcendental helpers, left uninterpreted. */
  datatype MathKit = MathKit(sqrt: real -> real, sin: real -> real, cos: real -> real)

  /** The kit's square root really is the non-negative square root. */
  ghost predicate SoundSqrt(kit: MathKit) {
    forall x: real :: x >= 0.0 ==> kit.sqrt(x) >= 0.0 && kit.sqrt(x) * kit.sqrt(x) == x
  }

  function RotOf(kit: MathKit, angle: real): Rot { Rot(kit.sin(angle), kit.cos(angle)) }

  function Length(kit: MathKit, v: Vec2): real { kit.sqrt(LengthSquared(v)) }

  /** Result of normalising a vector in place: the new vector and the old length. */
  datatype Normalized = Normalized(v: Vec2, length: real)

  /** In-place normalisation: a vector shorter than EPSILON is left unchanged
      and reported with length 0. */
  function Normalize(kit: MathKit, v: Vec2): Normalized {
    var len := Length(kit, v);
    if len < Settings.EPSILON then Normalized(v, 0.0)
    else Normalized(Scale(1.0 / len, v), len)
  }

  lemma LengthSquaredNonNegative(v: Vec2)
    ensures LengthSquared(v) >= 0.0
  {
    assert v.x * v.x >= 0.0 && v.y * v.y >= 0.0;
  }

  /** Squaring is monotone on the non-negative reals, strictly so for a
      strict comparison. */
  lemma SquareMonotone(a: real, b: real)
    requires 0.0 <= a <= b
    ensures a * a <= b * b
    ensures a < b ==> a * a < b * b
  {
    assert a * a <= a * b <= b * b;
    if a < b {
      calc {
        a * a;
      <= a * b;
      <  b * b;
      }
    }
  }

  lemma LengthSquaredOfScale(k: real, v: Vec2)
    ensures LengthSquared(Scale(k, v)) == k * k * LengthSquared(v)
  {
    calc {
      LengthSquared(Scale(k, v));
      (k * v.x) * (k * v.x) + (k * v.y) * (k * v.y);
      k * k * (v.x * v.x + v.y * v.y);
    }
  }

  /** With a sound square root, the kit's length squares back to the squared length. */
  lemma LengthSquares(kit: MathKit, v: Vec2)
    requires SoundSqrt(kit)
    ensures Length(kit, v) >= 0.0
    ensures Length(kit, v) * Length(kit, v) == LengthSquared(v)
  {
    LengthSquaredNonNegative(v);
  }

  /** A normalised vector never has squared length above 1: it is a unit vector,
      or it was shorter than EPSILON and left alone. */
  lemma NormalizeAtMostUnit(kit: MathKit, v: Vec2)
    requires SoundSqrt(kit)
    ensures LengthSquared(Normalize(kit, v).v) <= 1.0
    ensures Length(kit, v) >= Settings.EPSILON ==> LengthSquared(Normalize(kit, v).v) == 1.0
  {
    var len := Length(kit, v);
    LengthSquares(kit, v);
    if len < Settings.EPSILON {
      assert 0.0 <= len < 1.0;
      assert len * len <= len;
      assert LengthSquared(v) == len * len;
    } else {
      var k := 1.0 / len;
      LengthSquaredOfScale(k, v);
      assert k * len == 1.0;
      calc {
        LengthSquared(Scale(k, v));
        k * k * LengthSquared(v);
        k * k * (len * len);
        (k * len) * (k * len);
        1.0;
      }
    }
  }

  /** Rotating by a unit rotation keeps squared length. */
  lemma RotMulKeepsLength(q: Rot, v: Vec2)
    requires UnitRot(q)
    ensures LengthSquared(RotMul(q, v)) == LengthSquared(v)
  {
    calc {
      LengthSquared(RotMul(q, v));
      (q.c * v.x - q.s * v.y) * (q.c * v.x - q.s * v.y) + (q.s * v.x + q.c * v.y) * (q.s * v.x + q.c * v.y);
      (q.s * q.s + q.c * q.c) * (v.x * v.x) + (q.s * q.s + q.c * q.c) * (v.y * v.y);
      v.x * v.x + v.y * v.y;
    }
  }

  /** Undoing a unit rotation with its transpose gives the vector back. */
  lemma RotMulTransInverts(q: Rot, v: Vec2)
    requires UnitRot(q)
    ensures RotMulTrans(q, RotMul(q, v)) == v
  {
    var w := RotMul(q, v);
    calc {
      q.c * w.x + q.s * w.y;
      q.c * (q.c * v.x - q.s * v.y) + q.s * (q.s * v.x + q.c * v.y);
      (q.s * q.s + q.c * q.c) * v.x;
      v.x;
    }
    calc {
      -q.s * w.x + q.c * w.y;
      -q.s * (q.c * v.x - q.s * v.y) + q.c * (q.s * v.x + q.c * v.y);
      (q.s * q.s + q.c * q.c) * v.y;
      v.y;
    }
  }

  lemma DotDistributes(a: Vec2, b: Vec2, n: Vec2)
    ensures Dot(Add(a, b), n) == Dot(a, n) + Dot(b, n)
  {
  }

  lemma DotScale(k: real, a: Vec2, n: Vec2)
    ensures Dot(Scale(k, a), n) == k * Dot(a, n)
  {
  }

  lemma ScaleScale(a: real, b: real, v: Vec2)
    ensures Scale(a, Scale(b, v)) == Scale(a * b, v)
  {
  }

  lemma CrossScale(a: Vec2, k: real, v: Vec2)
    ensures Cross(a, Scale(k, v)) == k * Cross(a, v)
  {
  }

  /** A vector of length at least EPSILON is its length times its normalisation. */
  lemma NormalizeScalesBack(kit: MathKit, v: Vec2)
    requires SoundSqrt(kit)
    requires Length(kit, v) >= Settings.EPSILON
    ensures Normalize(kit, v).length == Length(kit, v)
    ensures Scale(Length(kit, v), Normalize(kit, v).v) == v
    ensures LengthSquared(Normalize(kit, v).v) == 1.0
  {
    NormalizeAtMostUnit(kit, v);
    var d := Length(kit, v);
    var k := 1.0 / d;
    assert d * k == 1.0;
    assert d * (k * v.x) == (d * k) * v.x;
    assert d * (k * v.y) == (d * k) * v.y;
  }
}
