/**
 * The coordinate value types that the modelled components pass around: the epsilon equality
 * of Coordinates3D, and the three vector operations the Looker constructor relies on. The rest
 * of the vector arithmetic is not part of this model.
 */
module Geometry {
  import Doubles

  datatype Point = Point(x: real, y: real, z: real)

  datatype Vector = Vector(x: real, y: real, z: real)

  const NullVector: Vector := Vector(0.0, 0.0, 0.0)

  /** The y axis, Vector.Y_VECTOR. */
  const YAxis: Vector := Vector(0.0, 1.0, 0.0)

  /** Point.vectorTo: the vector from `from` to `to`. */
  function VectorTo(from: Point, to: Point): Vector {
    Vector(to.x - from.x, to.y - from.y, to.z - from.z)
  }

  /** Vector.crossProduct. */
  function Cross(a: Vector, b: Vector): Vector {
    Vector(a.y * b.z - a.z * b.y, a.z * b.x - a.x * b.z, a.x * b.y - a.y * b.x)
  }

  /**
   * The `length == 0` test of Vector.scale. Over exact reals the length, the square root of
   * x * x + y * y + z * z, is 0 exactly when every component is 0.
   */
  predicate HasZeroLength(v: Vector) {
    v.x == 0.0 && v.y == 0.0 && v.z == 0.0
  }

  /** Coordinates3D.equals for points: every component equal within the tolerance. */
  predicate PointEquals(a: Point, b: Point) {
    Doubles.Equals(a.x, b.x) && Doubles.Equals(a.y, b.y) && Doubles.Equals(a.z, b.z)
  }

  /** Coordinates3D.equals for vectors. */
  predicate VectorEquals(a: Vector, b: Vector) {
    Doubles.Equals(a.x, b.x) && Doubles.Equals(a.y, b.y) && Doubles.Equals(a.z, b.z)
  }

  lemma PointEqualsIsToleranceOnEachAxis(a: Point, b: Point)
    ensures PointEquals(a, a)
    ensures PointEquals(a, b) == PointEquals(b, a)
    ensures a.x - b.x > Doubles.Epsilon ==> !PointEquals(a, b)
  {
  }

  /**
   * The cross product with the y axis is the null vector exactly when the vector is parallel
   * to the y axis, pointing up or down (or is itself null).
   */
  lemma CrossYAxisNull(v: Vector)
    ensures HasZeroLength(Cross(v, YAxis)) <==> v.x == 0.0 && v.z == 0.0
  {
    assert Cross(v, YAxis) == Vector(-v.z, 0.0, v.x);
  }
}
