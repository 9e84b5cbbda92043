/**
 * Points and areas of the compositor (`PointStruct`, `Point`, `Area`).
 *
 * Coordinates are Doubles in the source and are modelled as reals; areas are
 * Int32 pairs and are modelled as unbounded integers.
 */
module Geometry {

  /** A position in stage space. */
  datatype Point = Point(x: real, y: real)

  /** A width and a height in logical pixels. */
  datatype Area = Area(width: int, height: int)

  /** The `x` setter of `PointStruct`: only the x component changes. */
  function WithX(p: Point, v: real): (r: Point)
    ensures r.x == v && r.y == p.y
  {
    p.(x := v)
  }

  /** The `y` setter of `PointStruct`: only the y component changes. */
  function WithY(p: Point, v: real): (r: Point)
    ensures r.x == p.x && r.y == v
  {
    p.(y := v)
  }

  /** Component-wise `+`: a translation, commutative, with the origin as identity. */
  function Add(a: Point, b: Point): (r: Point)
    ensures r == Point(b.x + a.x, b.y + a.y)
    ensures r == a <==> b == Point(0.0, 0.0)
  {
    Point(a.x + b.x, a.y + b.y)
  }

  /** Component-wise `-`: the translation that takes `b` to `a`. It is the origin exactly when the points coincide. */
  function Sub(a: Point, b: Point): (r: Point)
    ensures a == Point(b.x + r.x, b.y + r.y)
    ensures r == Point(0.0, 0.0) <==> a == b
  {
    Point(a.x - b.x, a.y - b.y)
  }

  /** Subtraction undoes addition. */
  lemma AddSubCancel(a: Point, b: Point)
    ensures Sub(Add(a, b), b) == a
    ensures Add(Sub(a, b), b) == a
  {
  }

  /** A query translated together with the origin it is taken against is unaffected. */
  lemma SubTranslationInvariant(p: Point, origin: Point, d: Point)
    ensures Sub(Add(p, d), Add(origin, d)) == Sub(p, origin)
  {
  }

  /**
   * Linear interpolation from `p` towards `end`, component-wise
   * `p + (end - p) * t`. It starts at `p` and arrives at `end`.
   */
  function Lerp(p: Point, t: real, end: Point): (r: Point)
    ensures t == 0.0 ==> r == p
    ensures t == 1.0 ==> r == end
    ensures p == end ==> r == p
  {
    Point(p.x + (end.x - p.x) * t, p.y + (end.y - p.y) * t)
  }

  /** Interpolated points move along the segment: steps compose additively in t. */
  lemma LerpStepsCompose(p: Point, end: Point, s: real, t: real)
    ensures Sub(Lerp(p, s + t, end), Lerp(p, s, end)) == Sub(Lerp(p, t, end), p)
  {
  }

  /**
   * Conversion of a Double to an Int32 (`Int32(d)`): truncation toward zero.
   * Overflow of the 32-bit range is not modelled.
   */
  function Trunc(r: real): (t: int)
    ensures 0.0 <= r ==> 0 <= t && t as real <= r < t as real + 1.0
    ensures r < 0.0 ==> t <= 0 && t as real - 1.0 < r <= t as real
  {
    if r >= 0.0 then r.Floor else -((-r).Floor)
  }

  /** Truncation is exact on whole numbers. */
  lemma TruncOfInt(n: int)
    ensures Trunc(n as real) == n
  {
  }
}
