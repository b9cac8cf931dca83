/**
 * Plane geometry shared by every inspector: points, lines, the vector
 * arithmetic of ezdxf's `Vec3` restricted to the xy-plane, and the record of
 * floating-point library helpers (square root, angles, trigonometry) that the
 * model takes as inputs instead of computing.
 */
module Geometry {

  datatype Option<T> = None | Some(value: T)

  /** A 2D point or vector; every coordinate in the drawing is a real. */
  datatype Point = Point(x: real, y: real)

  /** A line entity or a plain segment: `start` and `end`, as in the DXF attributes. */
  datatype Line = Line(start: Point, end: Point)

  function Add(a: Point, b: Point): Point { Point(a.x + b.x, a.y + b.y) }
  function Sub(a: Point, b: Point): Point { Point(a.x - b.x, a.y - b.y) }
  function Scale(k: real, a: Point): Point { Point(k * a.x, k * a.y) }

  /** z-component of the cross product of (a.x, a.y, 0) and (b.x, b.y, 0). */
  function Cross(a: Point, b: Point): real { a.x * b.y - a.y * b.x }
  function Dot(a: Point, b: Point): real { a.x * b.x + a.y * b.y }
  function NormSq(a: Point): real { a.x * a.x + a.y * a.y }
  function DistSq(a: Point, b: Point): real { NormSq(Sub(b, a)) }

  /** `(a + b) / 2`. */
  function Midpoint(a: Point, b: Point): Point { Point((a.x + b.x) / 2.0, (a.y + b.y) / 2.0) }

  /** The vector of a line, end minus start. */
  function Direction(l: Line): Point { Sub(l.end, l.start) }

  function Abs(v: real): real { if v < 0.0 then -v else v }
  function Min(a: real, b: real): real { if a <= b then a else b }
  function Max(a: real, b: real): real { if a >= b then a else b }

  /**
   * The floating-point helpers the source obtains from `math` and ezdxf,
   * taken as given functions:
   *   sqrt        math.sqrt (and hence Vec3.magnitude)
   *   angleDeg    Vec3.angle_deg, the angle of a vector in degrees
   *   isParallel  Vec3.is_parallel(other, rel_tol)
   *   polar       (r, a) |-> r * (cos a, sin a) with `a` in degrees
   *   sinSq5      sin(5 degrees) squared, the orientation threshold
   *   cos89       cos(89 degrees), the vertical grouping factor
   */
  datatype Lib = Lib(
    sqrt: real -> real,
    angleDeg: Point -> real,
    isParallel: (Point, Point, real) -> bool,
    polar: (real, real) -> Point,
    sinSq5: real,
    cos89: real)

  /** Vec3.magnitude as the library computes it. */
  function Mag(lib: Lib, v: Point): real { lib.sqrt(NormSq(v)) }

  /** What the model relies on of `is_parallel`: vectors with a zero cross product are parallel. */
  ghost predicate ParallelSound(lib: Lib)
  {
    forall u: Point, v: Point, tol: real {:trigger lib.isParallel(u, v, tol)} ::
      Cross(u, v) == 0.0 ==> lib.isParallel(u, v, tol)
  }

  /**
   * `sqrt` is the non-negative square root on non-negative arguments. The
   * second conjunct follows from the first; it is spelt out because the
   * solver does not derive it from `sqrt(0) * sqrt(0) == 0` on its own.
   */
  ghost predicate SqrtSound(lib: Lib)
  {
    && (forall r: real {:trigger lib.sqrt(r)} :: 0.0 <= r ==> 0.0 <= lib.sqrt(r) && lib.sqrt(r) * lib.sqrt(r) == r)
    && lib.sqrt(0.0) == 0.0
  }
}
