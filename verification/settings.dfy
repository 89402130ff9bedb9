/** Engine tuning constants read by the solver.
    The engine's settings file is not part of this model; the values below are the
    usual JBox2D defaults. The general properties rest on their signs, on
    EPSILON being below 1, on linearSlop being below maxLinearCorrection and on
    a manifold holding two points; the concrete counterexamples (such as
    ContactPosition.ToiMovesOtherBody, which uses toiBaugarte = 0.75 and
    maxLinearCorrection = 0.2) use the values themselves. */
module Settings {
  /** Collision and constraint tolerance (metres). */
  const linearSlop: real := 0.005

  /** Largest position correction applied in one position iteration. */
  const maxLinearCorrection: real := 0.2

  /** Fraction of the overlap resolved per position iteration. */
  const baumgarte: real := 0.2

  /** Same fraction for the time-of-impact sub-step. */
  const toiBaugarte: real := 0.75

  /** Approach speed below which restitution is ignored. */
  const velocityThreshold: real := 1.0

  /** Single-precision machine epsilon. */
  const EPSILON: real := 0.00000011920928955078125

  /** Number of points a contact manifold can hold. */
  const maxManifoldPoints: nat := 2

  /** Skin radius given to a fresh edge shape. */
  const polygonRadius: real := 2.0 * linearSlop

  /** Single-precision value of pi. */
  const PI: real := 3.1415927
}
