/**
 * `Calculator`, the intersection arithmetic behind the outline connectivity
 * check: point-on-segment and point-on-arc tests with the tolerance 0.01,
 * line/line, circle/line and circle/circle intersections, the arc variants
 * that compute on the supporting circle and keep the points on the arc, and
 * the overlap tests for concentric circles and arcs.
 */
module OutlineCalculator {
  import opened Geometry
  import opened Entities
  import FiniteSets

  /** `Calculator.TOL`. */
  const Tol: real := 0.01

  /** The centre and radius of a circle, an arc's supporting circle, or a `DummyCircle`. */
  datatype Round = Round(center: Point, radius: real)

  function RoundOf(e: Entity): Round
    requires e.CircleE? || e.ArcE?
  {
    Round(e.center, e.radius)
  }

  /** The segment of a LINE entity. */
  function LineOf(e: Entity): Line
    requires e.LineE?
  {
    Line(e.start, e.end)
  }

  // ---------------------------------------------------------------- lines

  /** `calRangePointAndLine`: the distance of `p` from the line through `l`, |va x (p - start)| / |va|. */
  function RangePointAndLine(lib: Lib, p: Point, l: Line): real
    requires Mag(lib, Direction(l)) != 0.0
  {
    Abs(Cross(Direction(l), Sub(p, l.start)) / Mag(lib, Direction(l)))
  }

  /** `isOnLine`: within `Tol` of the supporting line and inside the segment's box widened by `Tol`. */
  predicate IsOnLine(lib: Lib, p: Point, l: Line)
    requires Mag(lib, Direction(l)) != 0.0
  {
    RangePointAndLine(lib, p, l) <= Tol
    && Min(l.start.x, l.end.x) - Tol <= p.x <= Max(l.start.x, l.end.x) + Tol
    && Min(l.start.y, l.end.y) - Tol <= p.y <= Max(l.start.y, l.end.y) + Tol
  }

  /** Every point of the segment itself, start + t * (end - start) with 0 <= t <= 1, passes `isOnLine`. */
  lemma SegmentOnLine(lib: Lib, l: Line, t: real)
    requires Mag(lib, Direction(l)) != 0.0 && 0.0 <= t <= 1.0
    ensures IsOnLine(lib, Add(Scale(t, Direction(l)), l.start), l)
  {
    var va := Direction(l);
    var p := Add(Scale(t, va), l.start);
    assert Sub(p, l.start) == Scale(t, va);
    assert Cross(va, Scale(t, va)) == t * (va.x * va.y - va.y * va.x) == 0.0;
    ScaleBetween(t, Direction(l).x, l.start.x);
    ScaleBetween(t, Direction(l).y, l.start.y);
  }

  lemma MulNonNeg(x: real, y: real)
    requires 0.0 <= x && 0.0 <= y
    ensures 0.0 <= x * y
  {
  }

  lemma MulBetween(t: real, d: real)
    requires 0.0 <= t <= 1.0 && 0.0 <= d
    ensures 0.0 <= t * d <= d
  {
    MulNonNeg(t, d);
    MulNonNeg(1.0 - t, d);
    assert (1.0 - t) * d == d - t * d;
  }

  /** s + t * d lies between s and s + d for 0 <= t <= 1. */
  lemma ScaleBetween(t: real, d: real, s: real)
    requires 0.0 <= t <= 1.0
    ensures Min(s, s + d) <= t * d + s <= Max(s, s + d)
  {
    if 0.0 <= d {
      MulBetween(t, d);
    } else {
      MulBetween(t, -d);
      assert t * (-d) == -(t * d);
    }
  }

  /** Under `ParallelSound`, vectors `is_parallel` rejects have a non-zero cross product. */
  lemma NotParallelCross(lib: Lib, u: Point, v: Point)
    requires ParallelSound(lib)
    ensures !lib.isParallel(u, v, Tol) ==> Cross(v, u) != 0.0
  {
    assert Cross(u, v) == 0.0 ==> lib.isParallel(u, v, Tol);
    assert Cross(v, u) == -Cross(u, v);
  }

  /**
   * With a non-negative square root, a point passing `isOnLine` has a cross
   * product with the segment of at most `Tol` times the segment's length.
   */
  lemma IsOnLineNear(lib: Lib, p: Point, l: Line)
    requires SqrtSound(lib) && Mag(lib, Direction(l)) != 0.0 && IsOnLine(lib, p, l)
    ensures Abs(Cross(Direction(l), Sub(p, l.start))) <= Tol * Mag(lib, Direction(l))
  {
    assert 0.0 <= NormSq(Direction(l));
    DivBound(Cross(Direction(l), Sub(p, l.start)), Mag(lib, Direction(l)));
  }

  /** |c / m| <= Tol with m > 0 gives |c| <= Tol * m. */
  lemma DivBound(c: real, m: real)
    requires 0.0 < m && Abs(c / m) <= Tol
    ensures Abs(c) <= Tol * m
  {
    var q := c / m;
    assert c == q * m;
    if q >= 0.0 {
      assert Abs(c) == q * m;
      assert (Tol - q) * m >= 0.0 by { MulNonNeg(Tol - q, m); }
    } else {
      assert Abs(c) == (-q) * m;
      assert (Tol + q) * m >= 0.0 by { MulNonNeg(Tol + q, m); }
    }
  }

  /** Two vectors with a non-zero cross product are both orthogonal (in the cross sense) only to the zero vector. */
  lemma CommonPointUnique(u: Point, v: Point, d: Point)
    requires Cross(u, v) != 0.0 && Cross(u, d) == 0.0 && Cross(v, d) == 0.0
    ensures d == Point(0.0, 0.0)
  {
    assert d.x * Cross(u, v) == u.x * (v.y * d.x) - v.x * (u.y * d.x);
    assert u.y * d.x == u.x * d.y && v.y * d.x == v.x * d.y;
    assert d.x * Cross(u, v) == u.x * (v.x * d.y) - v.x * (u.x * d.y) == 0.0;
    assert d.y * Cross(u, v) == u.x * (v.y * d.y) - v.x * (u.y * d.y);
    assert u.x * d.y == u.y * d.x && v.x * d.y == v.y * d.x;
    assert d.y * Cross(u, v) == u.x * (v.y * d.y) - v.x * (u.y * d.y) == (v.y * d.y) * u.x - (u.y * d.y) * v.x;
    assert d.y * Cross(u, v) == d.y * (u.x * v.y) - d.y * (u.y * v.x);
    assert d.y * Cross(u, v) == 0.0 by {
      assert d.y * Cross(u, v) * Cross(u, v) == (u.x * d.y) * (v.y * Cross(u, v)) - (v.x * d.y) * (u.y * Cross(u, v)) by {
        assert d.y * Cross(u, v) * Cross(u, v) == d.y * Cross(u, v) * (u.x * v.y - u.y * v.x);
      }
      assert (u.x * d.y) * (v.y * Cross(u, v)) - (v.x * d.y) * (u.y * Cross(u, v))
          == (u.y * d.x) * (v.y * Cross(u, v)) - (v.y * d.x) * (u.y * Cross(u, v));
      assert (u.y * d.x) * (v.y * Cross(u, v)) == (v.y * d.x) * (u.y * Cross(u, v));
    }
  }

  /** The point start_a + ta * va where the supporting lines of `a` and `b` meet (`bxa` = vb x va, non-zero). */
  function MeetingPoint(a: Line, b: Line): Point
    requires Cross(Direction(b), Direction(a)) != 0.0
  {
    var va, vb := Direction(a), Direction(b);
    var ta := Cross(Sub(a.start, b.start), vb) / Cross(vb, va);
    Add(Scale(ta, va), a.start)
  }

  /** The meeting point lies on both supporting lines, and it is the only point that does. */
  lemma MeetingPointExact(a: Line, b: Line, q: Point)
    requires Cross(Direction(b), Direction(a)) != 0.0
    ensures Cross(Direction(a), Sub(MeetingPoint(a, b), a.start)) == 0.0
    ensures Cross(Direction(b), Sub(MeetingPoint(a, b), b.start)) == 0.0
    ensures Cross(Direction(a), Sub(q, a.start)) == 0.0 && Cross(Direction(b), Sub(q, b.start)) == 0.0
      ==> q == MeetingPoint(a, b)
  {
    var va, vb := Direction(a), Direction(b);
    var vba := Sub(a.start, b.start);
    var bxa := Cross(vb, va);
    var ta := Cross(vba, vb) / bxa;
    var p := MeetingPoint(a, b);
    assert Sub(p, a.start) == Scale(ta, va);
    assert Cross(va, Scale(ta, va)) == ta * (va.x * va.y - va.y * va.x) == 0.0;
    assert Sub(p, b.start) == Add(Scale(ta, va), vba);
    assert Cross(vb, Add(Scale(ta, va), vba)) == ta * Cross(vb, va) + Cross(vb, vba);
    assert ta * bxa == Cross(vba, vb);
    assert Cross(vb, vba) == -Cross(vba, vb);
    if Cross(va, Sub(q, a.start)) == 0.0 && Cross(vb, Sub(q, b.start)) == 0.0 {
      var d := Sub(q, p);
      assert Cross(va, d) == Cross(va, Sub(q, a.start)) - Cross(va, Sub(p, a.start));
      assert Cross(vb, d) == Cross(vb, Sub(q, b.start)) - Cross(vb, Sub(p, b.start));
      assert Cross(va, vb) == -bxa;
      CommonPointUnique(va, vb, d);
    }
  }

  /**
   * `calInterLineAndLine`: nothing for a zero-length or parallel line,
   * otherwise the meeting point of the supporting lines when it passes
   * `isOnLine` for both.  (`bxa` = 0 is reported as parallel; the model
   * relies on `is_parallel` for that, see `LineAndLineExact`.)
   */
  function CalInterLineAndLine(lib: Lib, a: Line, b: Line): (r: set<Point>)
    ensures |r| <= 1
    ensures forall p :: p in r ==>
      Mag(lib, Direction(a)) != 0.0 && Mag(lib, Direction(b)) != 0.0 && IsOnLine(lib, p, a) && IsOnLine(lib, p, b)
    ensures (Mag(lib, Direction(a)) == 0.0 || Mag(lib, Direction(b)) == 0.0
             || lib.isParallel(Direction(a), Direction(b), Tol)) ==> r == {}
  {
    var va, vb := Direction(a), Direction(b);
    if Mag(lib, va) == 0.0 || Mag(lib, vb) == 0.0 then {}
    // The `Cross(vb, va) == 0.0` test is not in the source, which would divide
    // by zero there; under `ParallelSound` that case is already reported as
    // parallel (`NotParallelCross`), so with a sound library it is never reached.
    else if lib.isParallel(va, vb, Tol) || Cross(vb, va) == 0.0 then {}
    else
      var vt := MeetingPoint(a, b);
      if IsOnLine(lib, vt, a) && IsOnLine(lib, vt, b) then {vt} else {}
  }

  /**
   * For non-degenerate, non-parallel lines and any point `q` on both
   * supporting lines, the result is exactly {q} when `q` passes `isOnLine`
   * for both segments, and empty otherwise.
   */
  lemma LineAndLineExact(lib: Lib, a: Line, b: Line, q: Point)
    requires ParallelSound(lib)
    requires Mag(lib, Direction(a)) != 0.0 && Mag(lib, Direction(b)) != 0.0
    requires !lib.isParallel(Direction(a), Direction(b), Tol)
    requires Cross(Direction(a), Sub(q, a.start)) == 0.0 && Cross(Direction(b), Sub(q, b.start)) == 0.0
    ensures CalInterLineAndLine(lib, a, b) == (if IsOnLine(lib, q, a) && IsOnLine(lib, q, b) then {q} else {})
  {
    NotParallelCross(lib, Direction(a), Direction(b));
    MeetingPointExact(a, b, q);
  }

  // ---------------------------------------------------------- circle/line

  /** The points start + t * (end - start) for the parameters `ts`, kept when they pass `isOnLine`. */
  function PointsAt(lib: Lib, l: Line, ts: seq<real>): (r: set<Point>)
    requires Mag(lib, Direction(l)) != 0.0
    ensures |r| <= |ts|
    ensures forall p :: p in r ==> IsOnLine(lib, p, l) && exists i :: 0 <= i < |ts| && p == Add(Scale(ts[i], Direction(l)), l.start)
  {
    if |ts| == 0 then {}
    else
      var p := Add(Scale(ts[0], Direction(l)), l.start);
      var rest := PointsAt(lib, l, ts[1..]);
      assert forall q :: q in rest ==> exists i :: 0 <= i < |ts| && q == Add(Scale(ts[i], Direction(l)), l.start) by {
        forall q | q in rest ensures exists i :: 0 <= i < |ts| && q == Add(Scale(ts[i], Direction(l)), l.start) {
          var j :| 0 <= j < |ts[1..]| && q == Add(Scale(ts[1..][j], Direction(l)), l.start);
          assert ts[1..][j] == ts[j + 1];
        }
      }
      (if IsOnLine(lib, p, l) then {p} else {}) + rest
  }

  /** The quadratic a t^2 + b t + c whose roots are the parameters where the line meets the circle. */
  function QuadA(lib: Lib, l: Line): real
  {
    Mag(lib, Direction(l)) * Mag(lib, Direction(l))
  }

  /** With an exact square root, a zero vector is the only one of magnitude zero. */
  lemma MagZero(lib: Lib, v: Point)
    requires SqrtSound(lib)
    ensures NormSq(v) == 0.0 ==> Mag(lib, v) == 0.0
  {
  }

  /** With an exact square root, a = |vL|^2. */
  lemma QuadAExact(lib: Lib, l: Line)
    requires SqrtSound(lib)
    ensures QuadA(lib, l) == NormSq(Direction(l))
  {
    assert 0.0 <= NormSq(Direction(l));
  }

  /** With an exact square root, a non-degenerate line has a != 0. */
  lemma QuadANonZero(lib: Lib, l: Line)
    requires SqrtSound(lib) && Mag(lib, Direction(l)) != 0.0
    ensures QuadA(lib, l) != 0.0
  {
    QuadAExact(lib, l);
    MagZero(lib, Direction(l));
  }

  function QuadB(l: Line, c: Round): real
  {
    -2.0 * Dot(Direction(l), Sub(c.center, l.start))
  }

  function QuadC(lib: Lib, l: Line, c: Round): real
  {
    Mag(lib, Sub(c.center, l.start)) * Mag(lib, Sub(c.center, l.start)) - c.radius * c.radius
  }

  /** The discriminant b^2 - 4ac. */
  function Disc(lib: Lib, l: Line, c: Round): real
  {
    QuadB(l, c) * QuadB(l, c) - 4.0 * QuadA(lib, l) * QuadC(lib, l, c)
  }

  /** The double root -b / 2a. */
  function Vertex(lib: Lib, l: Line, c: Round): real
    requires Mag(lib, Direction(l)) != 0.0
  {
    -QuadB(l, c) / (2.0 * (Mag(lib, Direction(l)) * Mag(lib, Direction(l))))
  }

  /** The roots (-b + sqrt(D)) / 2a (`plus`) and (-b - sqrt(D)) / 2a. */
  function Root(lib: Lib, l: Line, c: Round, plus: bool): real
    requires Mag(lib, Direction(l)) != 0.0
  {
    if plus then (-QuadB(l, c) + lib.sqrt(Disc(lib, l, c))) / (2.0 * (Mag(lib, Direction(l)) * Mag(lib, Direction(l))))
    else (-QuadB(l, c) - lib.sqrt(Disc(lib, l, c))) / (2.0 * (Mag(lib, Direction(l)) * Mag(lib, Direction(l))))
  }

  /**
   * The parameters `calInterCircleAndLine` solves for: the double root
   * when the centre is within `Tol` of the radius from the line, both roots
   * when the discriminant is positive, none otherwise.
   */
  function CircleLineParams(lib: Lib, l: Line, c: Round): (ts: seq<real>)
    requires Mag(lib, Direction(l)) != 0.0
    ensures |ts| <= 2
    ensures |ts| == 1 <==> Abs(RangePointAndLine(lib, c.center, l) - c.radius) < Tol
    ensures |ts| == 1 ==> ts[0] == Vertex(lib, l, c)
    ensures |ts| == 2 ==> Disc(lib, l, c) > 0.0 && ts[0] == Root(lib, l, c, true) && ts[1] == Root(lib, l, c, false)
    ensures |ts| == 0 <==> Abs(RangePointAndLine(lib, c.center, l) - c.radius) >= Tol && Disc(lib, l, c) <= 0.0
  {
    if Abs(RangePointAndLine(lib, c.center, l) - c.radius) < Tol then [Vertex(lib, l, c)]
    else if Disc(lib, l, c) > 0.0 then [Root(lib, l, c, true), Root(lib, l, c, false)]
    else []
  }

  /** `calInterCircleAndLine`: at most two points, all on the segment's supporting line and passing `isOnLine`. */
  function CalInterCircleAndLine(lib: Lib, l: Line, c: Round): (r: set<Point>)
    ensures |r| <= 2
    ensures Mag(lib, Direction(l)) == 0.0 ==> r == {}
    ensures forall p :: p in r ==>
      Mag(lib, Direction(l)) != 0.0 && IsOnLine(lib, p, l) && Cross(Direction(l), Sub(p, l.start)) == 0.0
  {
    if Mag(lib, Direction(l)) == 0.0 then {}
    else
      var r := PointsAt(lib, l, CircleLineParams(lib, l, c));
      assert forall p :: p in r ==> Cross(Direction(l), Sub(p, l.start)) == 0.0 by {
        forall p | p in r ensures Cross(Direction(l), Sub(p, l.start)) == 0.0 {
          var ts := CircleLineParams(lib, l, c);
          var i :| 0 <= i < |ts| && p == Add(Scale(ts[i], Direction(l)), l.start);
          OnSupport(l, ts[i]);
        }
      }
      r
  }

  lemma OnSupport(l: Line, t: real)
    ensures Cross(Direction(l), Sub(Add(Scale(t, Direction(l)), l.start), l.start)) == 0.0
  {
    var va := Direction(l);
    assert Sub(Add(Scale(t, va), l.start), l.start) == Scale(t, va);
    assert Cross(va, Scale(t, va)) == t * (va.x * va.y - va.y * va.x);
  }

  /** A returned point is start + t * vL for one of the solved parameters t. */
  lemma CircleLinePoint(lib: Lib, l: Line, c: Round, p: Point) returns (t: real)
    requires Mag(lib, Direction(l)) != 0.0 && p in CalInterCircleAndLine(lib, l, c)
    ensures t in CircleLineParams(lib, l, c)
    ensures Sub(p, c.center) == Sub(Scale(t, Direction(l)), Sub(c.center, l.start))
  {
    var ts := CircleLineParams(lib, l, c);
    var i :| 0 <= i < |ts| && p == Add(Scale(ts[i], Direction(l)), l.start);
    t := ts[i];
  }

  /** With an exact square root, a = |vL|^2 and c = |vLsC|^2 - r^2. */
  lemma QuadExact(lib: Lib, l: Line, c: Round)
    requires SqrtSound(lib)
    ensures QuadA(lib, l) == NormSq(Direction(l))
    ensures QuadC(lib, l, c) == NormSq(Sub(c.center, l.start)) - c.radius * c.radius
  {
    assert 0.0 <= NormSq(Direction(l)) && 0.0 <= NormSq(Sub(c.center, l.start));
  }

  /** The value a t^2 + b t + c. */
  function QuadAt(a: real, b: real, c: real, t: real): real
  {
    a * t * t + b * t + c
  }

  /** |t vL - vLsC|^2 expands to |vL|^2 t^2 + b t + |vLsC|^2. */
  lemma DistOnLine(l: Line, c: Round, t: real)
    ensures NormSq(Sub(Scale(t, Direction(l)), Sub(c.center, l.start)))
         == QuadAt(NormSq(Direction(l)), QuadB(l, c), NormSq(Sub(c.center, l.start)), t)
  {
  }

  /** A non-zero factor of a zero product leaves the other factor zero. */
  lemma ZeroProduct(a: real, x: real)
    requires a != 0.0 && a * x == 0.0
    ensures x == 0.0
  {
  }

  /** x = y / z with z non-zero gives x z = y. */
  lemma DivMul(x: real, y: real, z: real)
    requires z != 0.0 && x == y / z
    ensures x * z == y
  {
  }

  /** A root t = (-b +- s) / 2a with s^2 = b^2 - 4ac, where a = nv and c = nc - rr, gives nv t^2 + b t + nc = rr. */
  lemma RootAlgebra(nv: real, nc: real, a: real, z: real, b: real, cc: real, rr: real, s: real, t: real)
    requires a != 0.0 && z == 2.0 * a && a == nv && cc == nc - rr && s * s == b * b - 4.0 * a * cc
    requires t == (-b + s) / z || t == (-b - s) / z
    ensures QuadAt(nv, b, nc, t) == rr
  {
    var u := z * t + b;
    if t == (-b + s) / z {
      DivMul(t, -b + s, z);
      assert u == s;
    } else {
      DivMul(t, -b - s, z);
      assert u == -s;
      assert u * u == s * s;
    }
    assert u * u == s * s;
    assert u * u == 4.0 * a * (a * t * t + b * t) + b * b;
    assert 4.0 * a * (a * t * t + b * t + cc) == 0.0;
    ZeroProduct(4.0 * a, a * t * t + b * t + cc);
  }

  /** With an exact square root, the coefficients of the quadratic are the exact ones. */
  lemma QuadFacts(lib: Lib, l: Line, c: Round)
    requires SqrtSound(lib) && Mag(lib, Direction(l)) != 0.0 && Disc(lib, l, c) > 0.0
    ensures QuadA(lib, l) != 0.0 && QuadA(lib, l) == NormSq(Direction(l))
    ensures QuadC(lib, l, c) == NormSq(Sub(c.center, l.start)) - c.radius * c.radius
    ensures lib.sqrt(Disc(lib, l, c)) * lib.sqrt(Disc(lib, l, c))
         == QuadB(l, c) * QuadB(l, c) - 4.0 * QuadA(lib, l) * QuadC(lib, l, c)
    ensures 2.0 * (Mag(lib, Direction(l)) * Mag(lib, Direction(l))) == 2.0 * QuadA(lib, l)
  {
    QuadANonZero(lib, l);
    QuadExact(lib, l, c);
  }

  /** With an exact square root, both roots t give |t vL - vLsC| = r. */
  lemma RootOnCircle(lib: Lib, l: Line, c: Round, plus: bool)
    requires SqrtSound(lib) && Mag(lib, Direction(l)) != 0.0 && Disc(lib, l, c) > 0.0
    ensures NormSq(Sub(Scale(Root(lib, l, c, plus), Direction(l)), Sub(c.center, l.start))) == c.radius * c.radius
  {
    QuadFacts(lib, l, c);
    DistOnLine(l, c, Root(lib, l, c, plus));
    RootAlgebra(NormSq(Direction(l)), NormSq(Sub(c.center, l.start)), QuadA(lib, l),
      2.0 * (Mag(lib, Direction(l)) * Mag(lib, Direction(l))), QuadB(l, c), QuadC(lib, l, c),
      c.radius * c.radius, lib.sqrt(Disc(lib, l, c)), Root(lib, l, c, plus));
  }

  /**
   * With an exact square root, the two-root case puts every returned point
   * exactly on the circle.
   */
  lemma CircleLineOnCircle(lib: Lib, l: Line, c: Round, p: Point)
    requires SqrtSound(lib) && Mag(lib, Direction(l)) != 0.0
    requires |CircleLineParams(lib, l, c)| == 2 && p in CalInterCircleAndLine(lib, l, c)
    ensures DistSq(c.center, p) == c.radius * c.radius
  {
    var t := CircleLinePoint(lib, l, c, p);
    if t == Root(lib, l, c, true) {
      RootOnCircle(lib, l, c, true);
    } else {
      RootOnCircle(lib, l, c, false);
    }
  }

  /** In the double-root case the point is the foot of the perpendicular from the centre. */
  lemma CircleLineTangentFoot(lib: Lib, l: Line, c: Round, p: Point)
    requires SqrtSound(lib) && Mag(lib, Direction(l)) != 0.0
    requires |CircleLineParams(lib, l, c)| == 1 && p in CalInterCircleAndLine(lib, l, c)
    ensures Dot(Direction(l), Sub(p, c.center)) == 0.0
  {
    var t := CircleLinePoint(lib, l, c, p);
    FootOfDoubleRoot(lib, l, c);
  }

  lemma FootOfDoubleRoot(lib: Lib, l: Line, c: Round)
    requires SqrtSound(lib) && Mag(lib, Direction(l)) != 0.0
    ensures Dot(Direction(l), Sub(Scale(Vertex(lib, l, c), Direction(l)), Sub(c.center, l.start))) == 0.0
  {
    QuadANonZero(lib, l);
    QuadAExact(lib, l);
    FootAlgebra(Direction(l), Sub(c.center, l.start), QuadA(lib, l),
      2.0 * (Mag(lib, Direction(l)) * Mag(lib, Direction(l))), QuadB(l, c), Vertex(lib, l, c));
  }

  /** t = -b / 2a with a = |vL|^2 and b = -2 vL.vLsC makes t vL - vLsC perpendicular to vL. */
  lemma FootAlgebra(vL: Point, vLsC: Point, a: real, z: real, b: real, t: real)
    requires a != 0.0 && a == NormSq(vL) && z == 2.0 * a && b == -2.0 * Dot(vL, vLsC) && t == -b / z
    ensures Dot(vL, Sub(Scale(t, vL), vLsC)) == 0.0
  {
    DivMul(t, -b, z);
    assert Dot(vL, Sub(Scale(t, vL), vLsC)) == t * NormSq(vL) - Dot(vL, vLsC);
  }

  // -------------------------------------------------------- circle/circle

  /** `areOverlapped`: centres within `Tol` and radii within `Tol`. */
  predicate AreOverlapped(lib: Lib, c1: Round, c2: Round)
  {
    Mag(lib, Sub(c1.center, c2.center)) <= Tol && Abs(c1.radius - c2.radius) <= Tol
  }

  /** Overlap does not depend on the order of the two circles. */
  lemma AreOverlappedSymmetric(lib: Lib, c1: Round, c2: Round)
    ensures AreOverlapped(lib, c1, c2) <==> AreOverlapped(lib, c2, c1)
  {
    assert NormSq(Sub(c1.center, c2.center)) == NormSq(Sub(c2.center, c1.center));
  }

  /** `center1 + vC1C2 / |vC1C2| * (r1 + TOL)`, the point reported for touching circles. */
  function TouchPoint(c1: Round, c2: Round, dist: real): Point
    requires dist != 0.0
  {
    Add(c1.center, Scale(c1.radius + Tol, Scale(1.0 / dist, Sub(c2.center, c1.center))))
  }

  /**
   * The cosine-law step for two crossing circles: rc = r1 cos(theta),
   * rs = sqrt(r1^2 - rc^2), and the points c1 + rc e1 +- rs e2 with e1 the
   * unit centre-to-centre vector and e2 its quarter turn.
   */
  function CrossPoints(lib: Lib, c1: Round, c2: Round, dist: real): set<Point>
    requires dist != 0.0 && c1.radius != 0.0
  {
    var e1 := Scale(1.0 / dist, Sub(c2.center, c1.center));
    var cosTheta := (c1.radius * c1.radius + dist * dist - c2.radius * c2.radius) / (2.0 * c1.radius * dist);
    var rc := c1.radius * cosTheta;
    var rs := lib.sqrt(c1.radius * c1.radius - rc * rc);
    var e2 := Point(-e1.y, e1.x);
    {Add(Add(c1.center, Scale(rc, e1)), Scale(rs, e2)), Sub(Add(c1.center, Scale(rc, e1)), Scale(rs, e2))}
  }

  /** |vC1C2|, the distance between the centres as the library computes it. */
  function CentreDist(lib: Lib, c1: Round, c2: Round): real
  {
    Mag(lib, Sub(c2.center, c1.center))
  }

  /**
   * `calInterCircleAndCircle` as written: no point for overlapping circles,
   * none when deltaR = d - (r1 + r2) > 2 TOL or deltaG = d - |r1 - r2| < 2 TOL,
   * one touch point when either is within 2 TOL, else the two cosine-law points.
   */
  function CalInterCircleAndCircleAsWritten(lib: Lib, c1: Round, c2: Round): (r: set<Point>)
    ensures |r| <= 2
    ensures AreOverlapped(lib, c1, c2) ==> r == {}
  {
    if AreOverlapped(lib, c1, c2) then {}
    else
      var d := CentreDist(lib, c1, c2);
      var deltaR := d - (c1.radius + c2.radius);
      var deltaG := d - Abs(c1.radius - c2.radius);
      if deltaR > 2.0 * Tol || deltaG < 2.0 * Tol then {}
      else if Abs(deltaR) <= 2.0 * Tol || Abs(deltaG) <= 2.0 * Tol then {TouchPoint(c1, c2, d)}
      else CrossPoints(lib, c1, c2, d)
  }

  /**
   * Circles touching from inside (the centre distance within 2 TOL of the
   * radius difference; exactly equal for a radius-2 circle at the origin and
   * a radius-1 circle at (1, 0), which meet at (2, 0)) are rejected by the
   * `deltaG < 2 TOL` test before the touch-point branch is reached.
   */
  lemma InternalTouchAsWrittenMissed(lib: Lib, c1: Round, c2: Round)
    requires !AreOverlapped(lib, c1, c2)
    requires var g := CentreDist(lib, c1, c2) - Abs(c1.radius - c2.radius); -2.0 * Tol <= g < 2.0 * Tol
    ensures CalInterCircleAndCircleAsWritten(lib, c1, c2) == {}
  {
  }

  /**
   * `calInterCircleAndCircle` with the disjointness test the touching branch
   * needs: circles nested apart by more than 2 TOL (deltaG < -2 TOL), or with
   * coincident centres, give no point; nested circles within 2 TOL of touching
   * reach the touch-point branch.
   */
  function CalInterCircleAndCircle(lib: Lib, c1: Round, c2: Round): (r: set<Point>)
    ensures |r| <= 2
    ensures AreOverlapped(lib, c1, c2) ==> r == {}
    ensures CentreDist(lib, c1, c2) - (c1.radius + c2.radius) > 2.0 * Tol ==> r == {}
  {
    if AreOverlapped(lib, c1, c2) then {}
    else
      var d := CentreDist(lib, c1, c2);
      var deltaR := d - (c1.radius + c2.radius);
      var deltaG := d - Abs(c1.radius - c2.radius);
      if deltaR > 2.0 * Tol || deltaG < -2.0 * Tol || d == 0.0 then {}
      else if Abs(deltaR) <= 2.0 * Tol || (Abs(deltaG) <= 2.0 * Tol && c1.radius >= c2.radius) then {TouchPoint(c1, c2, d)}
      else if Abs(deltaG) <= 2.0 * Tol then {TouchPoint(c2, c1, d)}
      else CrossPoints(lib, c1, c2, d)
  }

  /** `p` is within `e` of the circle `c`. */
  predicate NearCircle(lib: Lib, p: Point, c: Round, e: real)
  {
    Abs(Mag(lib, Sub(p, c.center)) - c.radius) <= e
  }

  lemma NormSqScale(k: real, v: Point)
    ensures NormSq(Scale(k, v)) == k * k * NormSq(v)
  {
  }

  /** A sound `sqrt` of a square is the absolute value. */
  lemma SqrtOfSquare(lib: Lib, x: real)
    requires SqrtSound(lib)
    ensures lib.sqrt(x * x) == Abs(x)
  {
    var s := lib.sqrt(x * x);
    var a := Abs(x);
    assert 0.0 <= s && s * s == a * a;
    assert (s + a) * (s - a) == 0.0;
    if s + a != 0.0 {
      ZeroProduct(s + a, s - a);
    }
  }

  /**
   * The touch point lies on the ray from c1's centre through c2's, r1 + TOL
   * from c1's centre and |r1 + TOL - d| from c2's.
   */
  lemma TouchPointDistances(lib: Lib, c1: Round, c2: Round, d: real)
    requires SqrtSound(lib) && d > 0.0 && d == Mag(lib, Sub(c2.center, c1.center))
    ensures Mag(lib, Sub(TouchPoint(c1, c2, d), c1.center)) == Abs(c1.radius + Tol)
    ensures Mag(lib, Sub(TouchPoint(c1, c2, d), c2.center)) == Abs(c1.radius + Tol - d)
  {
    var v := Sub(c2.center, c1.center);
    var u := Scale(1.0 / d, v);
    var m := c1.radius + Tol;
    var p := TouchPoint(c1, c2, d);
    MagSquared(lib, v);
    UnitDirection(v, d);
    assert Sub(p, c1.center) == Scale(m, u);
    assert Sub(p, c2.center) == Scale(m - d, u) by {
      assert c2.center == Add(c1.center, Scale(d, u));
      ScaleDiff(m, d, u);
    }
    MagOfScaled(lib, m, u);
    MagOfScaled(lib, m - d, u);
  }

  /** k times a unit vector has magnitude |k|. */
  lemma MagOfScaled(lib: Lib, k: real, u: Point)
    requires SqrtSound(lib) && NormSq(u) == 1.0
    ensures Mag(lib, Scale(k, u)) == Abs(k)
  {
    NormSqScale(k, u);
    assert NormSq(Scale(k, u)) == k * k;
    SqrtOfSquare(lib, k);
  }

  lemma ScaleDiff(m: real, d: real, u: Point)
    ensures Sub(Scale(m, u), Scale(d, u)) == Scale(m - d, u)
  {
  }

  /** With an exact square root, |v|^2 = v.v. */
  lemma MagSquared(lib: Lib, v: Point)
    requires SqrtSound(lib)
    ensures Mag(lib, v) * Mag(lib, v) == NormSq(v)
  {
    assert 0.0 <= NormSq(v);
  }

  /** v / |v| is a unit vector, and |v| times it is v. */
  lemma UnitDirection(v: Point, d: real)
    requires d > 0.0 && d * d == NormSq(v)
    ensures NormSq(Scale(1.0 / d, v)) == 1.0
    ensures Scale(d, Scale(1.0 / d, v)) == v
  {
    NormSqScale(1.0 / d, v);
    assert (1.0 / d) * d == 1.0;
    assert (1.0 / d) * (1.0 / d) * (d * d) == ((1.0 / d) * d) * ((1.0 / d) * d);
  }

  /**
   * Touching circles, from outside (|deltaR| <= 2 TOL) or from inside
   * (|deltaG| <= 2 TOL), that neither overlap nor share a centre give
   * exactly one point.
   */
  lemma CircleCircleTouch(lib: Lib, c1: Round, c2: Round)
    requires 0.0 <= c1.radius && 0.0 <= c2.radius
    requires !AreOverlapped(lib, c1, c2) && CentreDist(lib, c1, c2) != 0.0
    requires var d := CentreDist(lib, c1, c2);
      Abs(d - (c1.radius + c2.radius)) <= 2.0 * Tol || Abs(d - Abs(c1.radius - c2.radius)) <= 2.0 * Tol
    ensures |CalInterCircleAndCircle(lib, c1, c2)| == 1
    ensures SqrtSound(lib) ==> forall p :: p in CalInterCircleAndCircle(lib, c1, c2) ==>
      NearCircle(lib, p, c1, 3.0 * Tol) && NearCircle(lib, p, c2, 3.0 * Tol)
  {
    if SqrtSound(lib) {
      var d := CentreDist(lib, c1, c2);
      assert NormSq(Sub(c1.center, c2.center)) == NormSq(Sub(c2.center, c1.center));
      assert 0.0 < d;
      if Abs(d - (c1.radius + c2.radius)) <= 2.0 * Tol || c1.radius >= c2.radius {
        TouchPointDistances(lib, c1, c2, d);
      } else {
        TouchPointDistances(lib, c2, c1, d);
      }
    }
  }

  /**
   * The same internally touching circles now give one point, within 3 TOL of
   * both circles: r + TOL from the larger circle's centre, towards the smaller one.
   */
  lemma InternalTouchFound(lib: Lib, c1: Round, c2: Round)
    requires 0.0 <= c1.radius && 0.0 <= c2.radius
    requires !AreOverlapped(lib, c1, c2) && CentreDist(lib, c1, c2) != 0.0
    requires var g := CentreDist(lib, c1, c2) - Abs(c1.radius - c2.radius); -2.0 * Tol <= g < 2.0 * Tol
    ensures |CalInterCircleAndCircle(lib, c1, c2)| == 1
    ensures SqrtSound(lib) ==> forall p :: p in CalInterCircleAndCircle(lib, c1, c2) ==>
      NearCircle(lib, p, c1, 3.0 * Tol) && NearCircle(lib, p, c2, 3.0 * Tol)
  {
    CircleCircleTouch(lib, c1, c2);
  }

  /** Internally touching circles with the smaller one first are measured from the larger one's centre. */
  lemma InternalTouchFromLarger(lib: Lib, c1: Round, c2: Round)
    requires 0.0 <= c1.radius < c2.radius
    requires !AreOverlapped(lib, c1, c2) && CentreDist(lib, c1, c2) != 0.0
    requires var d := CentreDist(lib, c1, c2);
      Abs(d - (c1.radius + c2.radius)) > 2.0 * Tol && Abs(d - Abs(c1.radius - c2.radius)) <= 2.0 * Tol
    ensures CalInterCircleAndCircle(lib, c1, c2) == {TouchPoint(c2, c1, CentreDist(lib, c1, c2))}
  {
  }

  /** Circles nested more than 2 TOL apart give no point. */
  lemma CircleCircleNested(lib: Lib, c1: Round, c2: Round)
    requires CentreDist(lib, c1, c2) - Abs(c1.radius - c2.radius) < -2.0 * Tol
    ensures CalInterCircleAndCircle(lib, c1, c2) == {}
  {
  }

  // ------------------------------------------------------------------ arcs

  /** An `angle_deg` in (-180, 180] moved into [0, 360) as `isOnArc` does. */
  function NormAngle(a: real): real
  {
    if a < 0.0 then a + 360.0 else a
  }

  /** The angular test of `isOnArc`: [s, e], or [s, 360] and [0, e] when s >= e. */
  predicate InSweepAsTested(s: real, e: real, a: real)
  {
    if s >= e then s <= a <= 360.0 || 0.0 <= a <= e else s <= a <= e
  }

  /**
   * The counter-clockwise sweep from `s` to `e` unrolled: it ends at e, or at
   * e + 360 when it passes 0 degrees; `a` lies on it when a or a + 360 does.
   */
  predicate OnSweep(s: real, e: real, a: real)
  {
    var e' := if s < e then e else e + 360.0;
    (s <= a <= e') || (s <= a + 360.0 <= e')
  }

  /** For angles in [0, 360), the wrapped test is the unrolled sweep; s = e is the whole circle. */
  lemma InSweepMeaning(s: real, e: real, a: real)
    requires 0.0 <= s < 360.0 && 0.0 <= e < 360.0 && 0.0 <= a < 360.0
    ensures InSweepAsTested(s, e, a) <==> OnSweep(s, e, a)
    ensures s == e ==> InSweepAsTested(s, e, a)
  {
  }

  /** The angles `angle_deg` returns lie in [-180, 180]. */
  ghost predicate AngleRange(lib: Lib)
  {
    forall v: Point {:trigger lib.angleDeg(v)} :: -180.0 <= lib.angleDeg(v) <= 180.0
  }

  /**
   * `isOnArc`: false when the point is more than `Tol` beyond the radius,
   * otherwise the angular test on the normalised angle of point - centre.
   */
  predicate IsOnArc(lib: Lib, p: Point, arc: Entity)
    requires arc.ArcE?
  {
    var vcp := Sub(p, arc.center);
    if Mag(lib, vcp) - arc.radius > Tol then false
    else InSweepAsTested(arc.startAngle, arc.endAngle, NormAngle(lib.angleDeg(vcp)))
  }

  /**
   * A point is on an arc (angles in [0, 360)) exactly when it is no farther
   * than radius + TOL from the centre, however close to the centre, and its
   * direction lies on the counter-clockwise sweep from start to end.
   */
  lemma IsOnArcMeaning(lib: Lib, p: Point, arc: Entity)
    requires arc.ArcE? && AngleRange(lib)
    requires 0.0 <= arc.startAngle < 360.0 && 0.0 <= arc.endAngle < 360.0
    ensures IsOnArc(lib, p, arc) <==>
      Mag(lib, Sub(p, arc.center)) <= arc.radius + Tol
      && OnSweep(arc.startAngle, arc.endAngle, NormAngle(lib.angleDeg(Sub(p, arc.center))))
  {
    var a := lib.angleDeg(Sub(p, arc.center));
    assert -180.0 <= a <= 180.0;
    InSweepMeaning(arc.startAngle, arc.endAngle, NormAngle(a));
  }

  /** `calInterArcAndLine`: the supporting circle's points with the line that lie on the arc. */
  function CalInterArcAndLine(lib: Lib, l: Line, arc: Entity): (r: set<Point>)
    requires arc.ArcE?
    ensures |r| <= 2 && r <= CalInterCircleAndLine(lib, l, RoundOf(arc))
    ensures forall p :: p in r ==> Mag(lib, Direction(l)) != 0.0 && IsOnLine(lib, p, l) && IsOnArc(lib, p, arc)
  {
    var circlePoint := CalInterCircleAndLine(lib, l, RoundOf(arc));
    var r := set p | p in circlePoint && IsOnArc(lib, p, arc);
    FiniteSets.SubsetSize(r, circlePoint);
    r
  }

  /** `calInterCircleAndArc`: nothing when the circle overlaps the arc's circle, else the circle points on the arc. */
  function CalInterCircleAndArc(lib: Lib, circle: Round, arc: Entity): (r: set<Point>)
    requires arc.ArcE?
    ensures |r| <= 2 && r <= CalInterCircleAndCircle(lib, circle, RoundOf(arc))
    ensures AreOverlapped(lib, circle, RoundOf(arc)) ==> r == {}
    ensures forall p :: p in r ==> IsOnArc(lib, p, arc)
  {
    if AreOverlapped(lib, circle, RoundOf(arc)) then {}
    else
      var circlePoint := CalInterCircleAndCircle(lib, circle, RoundOf(arc));
      var r := set p | p in circlePoint && IsOnArc(lib, p, arc);
      FiniteSets.SubsetSize(r, circlePoint);
      r
  }

  /**
   * `areOverlappedArcAndArc`: overlapping supporting circles and the start or
   * end angle of `arc2` inside [s1, e1], or inside [s1, 360] or [0, e1] when
   * s1 > e1.
   */
  predicate AreOverlappedArcAndArc(lib: Lib, arc1: Entity, arc2: Entity)
    requires arc1.ArcE? && arc2.ArcE?
  {
    if !AreOverlapped(lib, RoundOf(arc1), RoundOf(arc2)) then false
    else
      var s, e := arc1.startAngle, arc1.endAngle;
      var inS := if s > e then s <= arc2.startAngle <= 360.0 || 0.0 <= arc2.startAngle <= e
        else s <= arc2.startAngle <= e;
      var inE := if s > e then s <= arc2.endAngle <= 360.0 || 0.0 <= arc2.endAngle <= e
        else s <= arc2.endAngle <= e;
      inS || inE
  }

  /**
   * Arc overlap is circle overlap plus an end of `arc2` on `arc1` in the
   * angular sense of `isOnArc`, except that an `arc1` with equal start and
   * end angles counts only its one angle here, and the whole circle there.
   */
  lemma ArcOverlapMeaning(lib: Lib, arc1: Entity, arc2: Entity)
    requires arc1.ArcE? && arc2.ArcE?
    ensures AreOverlappedArcAndArc(lib, arc1, arc2) ==> AreOverlapped(lib, RoundOf(arc1), RoundOf(arc2))
    ensures arc1.startAngle != arc1.endAngle ==>
      (AreOverlappedArcAndArc(lib, arc1, arc2) <==>
        AreOverlapped(lib, RoundOf(arc1), RoundOf(arc2))
        && (InSweepAsTested(arc1.startAngle, arc1.endAngle, arc2.startAngle)
            || InSweepAsTested(arc1.startAngle, arc1.endAngle, arc2.endAngle)))
    ensures arc1.startAngle == arc1.endAngle ==>
      (AreOverlappedArcAndArc(lib, arc1, arc2) <==>
        AreOverlapped(lib, RoundOf(arc1), RoundOf(arc2))
        && (arc2.startAngle == arc1.startAngle || arc2.endAngle == arc1.startAngle))
  {
  }

  /** `calInterArcAndArc`: nothing for overlapping arcs, else the circle points on both arcs. */
  function CalInterArcAndArc(lib: Lib, arc1: Entity, arc2: Entity): (r: set<Point>)
    requires arc1.ArcE? && arc2.ArcE?
    ensures |r| <= 2 && r <= CalInterCircleAndCircle(lib, RoundOf(arc1), RoundOf(arc2))
    ensures forall p :: p in r ==> IsOnArc(lib, p, arc1) && IsOnArc(lib, p, arc2)
  {
    if AreOverlappedArcAndArc(lib, arc1, arc2) then {}
    else
      var circlePoint := CalInterCircleAndCircle(lib, RoundOf(arc1), RoundOf(arc2));
      var r := set p | p in circlePoint && IsOnArc(lib, p, arc1) && IsOnArc(lib, p, arc2);
      FiniteSets.SubsetSize(r, circlePoint);
      r
  }

  /**
   * Arcs on overlapping circles never intersect, whether or not their angles
   * overlap: the arc test returns early, or the circle routine does.
   */
  lemma ArcAndArcOverlapped(lib: Lib, arc1: Entity, arc2: Entity)
    requires arc1.ArcE? && arc2.ArcE? && AreOverlapped(lib, RoundOf(arc1), RoundOf(arc2))
    ensures CalInterArcAndArc(lib, arc1, arc2) == {}
  {
  }
}
