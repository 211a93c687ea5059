/**
 * Points of three.js (`Vector3`) as values, and the JavaScript `Math`
 * functions the animations call. The trigonometric functions and the power
 * function are left uninterpreted: they are function values supplied by the
 * caller, and only the facts that a proof needs about them (such as
 * |sin| <= 1) are assumed as preconditions.
 */
module Geometry {
  datatype Vec3 = Vec3(x: real, y: real, z: real)

  /** `Math.cos`, `Math.sin`, `Math.pow` and `Math.PI`. */
  datatype MathLib = MathLib(cos: real -> real, sin: real -> real, pow: (real, real) -> real, pi: real)

  /** The bounds the real sine and cosine obey. */
  ghost predicate TrigBounded(m: MathLib)
  {
    forall a :: -1.0 <= m.sin(a) <= 1.0 && -1.0 <= m.cos(a) <= 1.0
  }

  function Abs(a: real): (r: real)
    ensures r >= 0.0 && (r == a || r == -a)
  {
    if a < 0.0 then -a else a
  }

  /** The square of the Euclidean distance (`distanceTo` squared). */
  function SquaredDistance(a: Vec3, b: Vec3): (d: real)
    ensures d >= 0.0
    ensures a == b ==> d == 0.0
  {
    var dx, dy, dz := a.x - b.x, a.y - b.y, a.z - b.z;
    dx * dx + dy * dy + dz * dz
  }
}
