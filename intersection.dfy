/**
 * Primitives and their intersections with a ray. The shapes' geometry (roots, normals) is not
 * modelled; what is kept is the data the scene reader builds (the shape parameters, checked as
 * the Sphere and Plane constructors check them, and a Surface per primitive) and the
 * Intersection value with its guard, ordering and equality.
 */
module Primitives {
  import opened Wrappers
  import opened Geometry
  import Doubles
  import Surface

  datatype Shape = Sphere(center: Point, radius: real) | Plane(point: Point, normal: Vector)

  datatype GeometryError = NonPositiveRadius | NullNormal | NonPositiveDistance

  /** The Sphere constructor: the radius must be positive. */
  function NewSphere(center: Point, radius: real): (r: Result<Shape, GeometryError>)
    ensures r.Success? <==> radius > 0.0
    ensures r.Success? ==> r.value.Sphere? && r.value.center == center && r.value.radius == radius
  {
    if radius <= 0.0 then Failure(NonPositiveRadius) else Success(Sphere(center, radius))
  }

  /** The Plane constructor: the normal must not equal the null vector within the tolerance. */
  function NewPlane(point: Point, normal: Vector): (r: Result<Shape, GeometryError>)
    ensures r.Success? <==> !(Doubles.Abs(normal.x) <= Doubles.Epsilon && Doubles.Abs(normal.y) <= Doubles.Epsilon && Doubles.Abs(normal.z) <= Doubles.Epsilon)
    ensures r.Success? ==> r.value.Plane? && r.value.point == point && r.value.normal == normal
  {
    if VectorEquals(normal, NullVector) then Failure(NullNormal) else Success(Plane(point, normal))
  }

  /** A primitive owns its shape and its own Surface object. */
  datatype Primitive = Primitive(shape: Shape, surface: Surface.Surface)

  /** Building a primitive allocates a fresh, empty surface. */
  method NewPrimitive(shape: Shape) returns (p: Primitive)
    ensures p.shape == shape && fresh(p.surface) && p.surface.table == map[]
  {
    var surface := new Surface.Surface();
    p := Primitive(shape, surface);
  }

  datatype Intersection = Intersection(point: Point, primitive: Primitive, distance: real, entering: bool)

  /** The Intersection constructor rejects a distance that is not positive; the getters return its arguments. */
  function NewIntersection(point: Point, primitive: Primitive, distance: real, entering: bool): (r: Result<Intersection, GeometryError>)
    ensures r.Success? <==> distance > 0.0
    ensures r.Failure? ==> r.error == NonPositiveDistance
    ensures r.Success? ==> r.value.point == point && r.value.primitive == primitive
    ensures r.Success? ==> r.value.distance == distance && r.value.entering == entering
  {
    if distance <= 0.0 then Failure(NonPositiveDistance) else Success(Intersection(point, primitive, distance, entering))
  }

  /** `compareTo`: Double.compare of the distances, which answers -1, 0 or 1. */
  function CompareTo(a: Intersection, b: Intersection): (r: int)
    ensures r == -1 || r == 0 || r == 1
    ensures r < 0 <==> a.distance < b.distance
    ensures r == 0 <==> a.distance == b.distance
    ensures r > 0 <==> a.distance > b.distance
  {
    if a.distance < b.distance then -1 else if a.distance > b.distance then 1 else 0
  }

  /** `compareTo` is a total preorder: antisymmetric in sign, transitive, and reflexive. */
  lemma CompareToIsTotalPreorder(a: Intersection, b: Intersection, c: Intersection)
    ensures CompareTo(a, a) == 0
    ensures CompareTo(a, b) == -CompareTo(b, a)
    ensures CompareTo(a, b) <= 0 && CompareTo(b, c) <= 0 ==> CompareTo(a, c) <= 0
  {
  }

  /**
   * `equals`: distances equal within the tolerance, the same entering flag, equal points (within
   * the tolerance per axis) and the same primitive.
   */
  predicate Equals(a: Intersection, b: Intersection) {
    Doubles.Equals(b.distance, a.distance)
    && a.entering == b.entering
    && PointEquals(a.point, b.point)
    && a.primitive == b.primitive
  }

  /** Equality is reflexive and symmetric, and compares distances only up to the tolerance. */
  lemma EqualsSpec(a: Intersection, b: Intersection)
    ensures Equals(a, a)
    ensures Equals(a, b) == Equals(b, a)
    ensures Equals(a, b) ==> a.entering == b.entering && a.primitive == b.primitive
    ensures Equals(a, b) ==> -Doubles.Epsilon <= a.distance - b.distance <= Doubles.Epsilon
    ensures a == b.(distance := b.distance + Doubles.Epsilon) ==> Equals(a, b) && CompareTo(a, b) > 0
  {
  }
}
