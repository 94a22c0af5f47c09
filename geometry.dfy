/**
 * Vector arithmetic and the collaborators the simulation calls but does not
 * define: square root, sine, cosine, vector length and normalisation are taken
 * as parameters (a `MathLib`), and every random draw is a unit value that the
 * caller supplies.
 */
module Geometry {

  /** A three-component vector: x, y are planar, z is height above ground. */
  datatype Vec3 = Vec3(x: real, y: real, z: real)

  function Add(a: Vec3, b: Vec3): Vec3 {
    Vec3(a.x + b.x, a.y + b.y, a.z + b.z)
  }

  function Sub(a: Vec3, b: Vec3): Vec3 {
    Vec3(a.x - b.x, a.y - b.y, a.z - b.z)
  }

  function Scale(a: Vec3, k: real): Vec3 {
    Vec3(a.x * k, a.y * k, a.z * k)
  }

  /** Linear interpolation: t = 0 gives a, t = 1 gives b. */
  function Lerp(a: Vec3, b: Vec3, t: real): (r: Vec3)
    ensures t == 0.0 ==> r == a
    ensures t == 1.0 ==> r == b
  {
    Add(a, Scale(Sub(b, a), t))
  }

  /** Squared distance in the ground plane. */
  function PlanarDist2(a: Vec3, b: Vec3): real {
    (b.x - a.x) * (b.x - a.x) + (b.y - a.y) * (b.y - a.y)
  }

  function Abs(x: real): real {
    if x < 0.0 then -x else x
  }

  /**
   * The floating-point routines the source calls. Their exact values are not
   * modelled; every property proved holds whatever these functions return.
   */
  datatype MathLib = MathLib(
    sqrt: real -> real,
    sin: real -> real,
    cos: real -> real,
    length: Vec3 -> real,
    norm: Vec3 -> Vec3)

  /** A draw of the uniform generator, given as a point of [0, 1). */
  predicate IsUnit(u: real) {
    0.0 <= u < 1.0
  }

  /** `RandomFloat(lo, hi)` for the unit draw u: every value of [lo, hi) is reached by one u. */
  function RandomFloat(lo: real, hi: real, u: real): (r: real)
    ensures IsUnit(u) && lo <= hi ==> lo <= r <= hi
    ensures IsUnit(u) && lo < hi ==> r < hi
  {
    var d := hi - lo;
    ScaleByUnit(d, u);
    lo + d * u
  }

  lemma ScaleByUnit(d: real, u: real)
    ensures 0.0 <= d && IsUnit(u) ==> 0.0 <= d * u <= d
    ensures 0.0 < d && IsUnit(u) ==> d * u < d
  {
    if 0.0 <= d && IsUnit(u) {
      assert d - d * u == d * (1.0 - u);
      assert 0.0 <= d * (1.0 - u);
    }
  }
}
