/**
 * Axis-aligned bounding boxes of drawing entities (`BoundingBox`): one box per
 * supported entity kind, and the min/max fold over a whole drawing.
 */
module BoundingBox {
  import opened Geometry
  import opened Entities

  /** A box as the source returns it: (left, bottom, right, top). */
  datatype Box = Box(lft: real, btm: real, rgt: real, top: real)

  predicate Contains(b: Box, p: Point)
  {
    b.lft <= p.x <= b.rgt && b.btm <= p.y <= b.top
  }

  /** `outer` covers `inner`. */
  predicate Encloses(outer: Box, inner: Box)
  {
    outer.lft <= inner.lft && outer.btm <= inner.btm && inner.rgt <= outer.rgt && inner.top <= outer.top
  }

  predicate WellFormed(b: Box)
  {
    b.lft <= b.rgt && b.btm <= b.top
  }

  // ---------------------------------------------------------------- per kind

  /** A line's box is the least box holding both endpoints. */
  function LineBox(s: Point, e: Point): (b: Box)
    ensures WellFormed(b) && Contains(b, s) && Contains(b, e)
    ensures forall c: Box :: Contains(c, s) && Contains(c, e) ==> Encloses(c, b)
  {
    Box(Min(s.x, e.x), Min(s.y, e.y), Max(s.x, e.x), Max(s.y, e.y))
  }

  /** A circle's box is the least box holding its four axis extremes. */
  function CircleBox(c: Point, r: real): (b: Box)
    ensures 0.0 <= r ==>
      (WellFormed(b)
       && Contains(b, Point(c.x - r, c.y)) && Contains(b, Point(c.x + r, c.y))
       && Contains(b, Point(c.x, c.y - r)) && Contains(b, Point(c.x, c.y + r)))
    ensures forall o: Box ::
      (Contains(o, Point(c.x - r, c.y)) && Contains(o, Point(c.x + r, c.y))
       && Contains(o, Point(c.x, c.y - r)) && Contains(o, Point(c.x, c.y + r))) ==> Encloses(o, b)
  {
    Box(c.x - r, c.y - r, c.x + r, c.y + r)
  }

  /** A point's box is degenerate: the only box it is the least box of is itself. */
  function PointBox(p: Point): (b: Box)
    ensures WellFormed(b) && Contains(b, p)
    ensures forall q :: Contains(b, q) <==> q == p
  {
    Box(p.x, p.y, p.x, p.y)
  }

  /** The min/max of `vs`' coordinates, the specification of the polyline loop. */
  function HullBox(vs: seq<Point>): Box
    requires |vs| > 0
  {
    if |vs| == 1 then PointBox(vs[0])
    else
      var h := HullBox(vs[..|vs| - 1]);
      var v := vs[|vs| - 1];
      Box(Min(h.lft, v.x), Min(h.btm, v.y), Max(h.rgt, v.x), Max(h.top, v.y))
  }

  /** HullBox is the least box that holds every vertex. */
  lemma {:induction false} HullBoxLeast(vs: seq<Point>)
    requires |vs| > 0
    ensures WellFormed(HullBox(vs))
    ensures forall i :: 0 <= i < |vs| ==> Contains(HullBox(vs), vs[i])
    ensures forall c: Box :: (forall i :: 0 <= i < |vs| ==> Contains(c, vs[i])) ==> Encloses(c, HullBox(vs))
  {
    if |vs| > 1 {
      var init := vs[..|vs| - 1];
      HullBoxLeast(init);
      assert forall i :: 0 <= i < |init| ==> init[i] == vs[i];
      forall c: Box | (forall i :: 0 <= i < |vs| ==> Contains(c, vs[i]))
        ensures Encloses(c, HullBox(vs))
      {
        assert forall i :: 0 <= i < |init| ==> Contains(c, init[i]);
        assert Contains(c, vs[|vs| - 1]);
        assert Encloses(c, HullBox(init));
      }
    }
  }

  /**
   * The LWPolyline box: running min/max over the vertices.  The source reads
   * vertex 0 before the loop, so a polyline without vertices is not accepted.
   */
  method LWPolylineBox(vs: seq<Point>) returns (b: Box)
    requires |vs| > 0
    ensures b == HullBox(vs)
  {
    var lft, rgt := vs[0].x, vs[0].x;
    var btm, top := vs[0].y, vs[0].y;
    var k := 0;
    while k < |vs|
      invariant 0 <= k <= |vs|
      invariant Box(lft, btm, rgt, top) == HullBox(vs[..if k == 0 then 1 else k])
    {
      assert vs[..k + 1][..k] == vs[..k];
      lft := Min(lft, vs[k].x);
      rgt := Max(rgt, vs[k].x);
      btm := Min(btm, vs[k].y);
      top := Max(top, vs[k].y);
      k := k + 1;
    }
    assert vs[..k] == vs;
    b := Box(lft, btm, rgt, top);
  }

  // --------------------------------------------------------------------- arcs

  /** The point at `t` degrees lies on the arc that runs counter-clockwise from `s` to `e`. */
  predicate ArcContainsAngle(s: real, e: real, t: real)
  {
    if s <= e then s <= t <= e else s <= t || t <= e
  }

  /**
   * What the model relies on of the trigonometry: a point at radius r >= 0 has
   * coordinates within [-r, r], and the four axis directions are exact.
   */
  ghost predicate PolarSound(lib: Lib)
  {
    (forall r: real, a: real {:trigger lib.polar(r, a)} :: 0.0 <= r ==>
       -r <= lib.polar(r, a).x <= r && -r <= lib.polar(r, a).y <= r)
    && (forall r: real {:trigger lib.polar(r, 0.0)} :: lib.polar(r, 0.0) == Point(r, 0.0))
    && (forall r: real {:trigger lib.polar(r, 90.0)} :: lib.polar(r, 90.0) == Point(0.0, r))
    && (forall r: real {:trigger lib.polar(r, 180.0)} :: lib.polar(r, 180.0) == Point(-r, 0.0))
    && (forall r: real {:trigger lib.polar(r, 270.0)} :: lib.polar(r, 270.0) == Point(0.0, -r))
  }

  /** The end angle the arc box works with: `end + 360` when the arc wraps past 0. */
  function UnwrappedEnd(s: real, e: real): real
  {
    if s > e then e + 360.0 else e
  }

  /** The arc box exactly as the source computes it. */
  function ArcBoxAsWritten(lib: Lib, c: Point, r: real, s: real, e: real): Box
  {
    var st := PointAtAngle(lib, c, r, s);
    var ed := PointAtAngle(lib, c, r, e);
    var e2 := UnwrappedEnd(s, e);
    var lft := if s < 180.0 < e2 then c.x - r else Min(st.x, ed.x);
    var rgt := if s < 360.0 < e2 then c.x + r else Max(st.x, ed.x);
    var top := if s < 90.0 < e2 then c.y + r else Max(st.y, ed.y);
    var btm := if s < 270.0 < e2 then c.y - r else Min(st.x, ed.x);
    Box(lft, btm, rgt, top)
  }

  /** The axis direction `a` is strictly inside (s, e2), on the first turn or the second. */
  predicate PassesAxis(s: real, e2: real, a: real)
  {
    (s < a < e2) || (s < a + 360.0 < e2)
  }

  /**
   * The arc box as intended: the bottom comes from the endpoints' y values,
   * and a wrapped arc is widened at the axis directions it passes on its
   * second turn (450, 540 and 630 degrees) as well.
   */
  function ArcBox(lib: Lib, c: Point, r: real, s: real, e: real): Box
  {
    var st := PointAtAngle(lib, c, r, s);
    var ed := PointAtAngle(lib, c, r, e);
    var e2 := UnwrappedEnd(s, e);
    var lft := if PassesAxis(s, e2, 180.0) then c.x - r else Min(st.x, ed.x);
    var rgt := if PassesAxis(s, e2, 360.0) then c.x + r else Max(st.x, ed.x);
    var top := if PassesAxis(s, e2, 90.0) then c.y + r else Max(st.y, ed.y);
    var btm := if PassesAxis(s, e2, 270.0) then c.y - r else Min(st.y, ed.y);
    Box(lft, btm, rgt, top)
  }

  /**
   * The intended arc box holds both endpoints, and each side reaches the
   * circle's extreme exactly when the arc passes that axis direction;
   * otherwise it is the endpoints' extreme.
   */
  lemma ArcBoxSound(lib: Lib, c: Point, r: real, s: real, e: real)
    requires PolarSound(lib) && 0.0 <= r
    requires 0.0 <= s < 360.0 && 0.0 <= e < 360.0
    ensures var b := ArcBox(lib, c, r, s, e);
      Contains(b, PointAtAngle(lib, c, r, s)) && Contains(b, PointAtAngle(lib, c, r, e))
    ensures var b := ArcBox(lib, c, r, s, e);
      (ArcContainsAngle(s, e, 90.0) ==> b.top == c.y + r)
      && (ArcContainsAngle(s, e, 180.0) ==> b.lft == c.x - r)
      && (ArcContainsAngle(s, e, 270.0) ==> b.btm == c.y - r)
      && (ArcContainsAngle(s, e, 0.0) ==> b.rgt == c.x + r)
    ensures var b := ArcBox(lib, c, r, s, e);
      var st := PointAtAngle(lib, c, r, s);
      var ed := PointAtAngle(lib, c, r, e);
      (!ArcContainsAngle(s, e, 90.0) ==> b.top == Max(st.y, ed.y))
      && (!ArcContainsAngle(s, e, 180.0) ==> b.lft == Min(st.x, ed.x))
      && (!ArcContainsAngle(s, e, 270.0) ==> b.btm == Min(st.y, ed.y))
      && (!ArcContainsAngle(s, e, 0.0) ==> b.rgt == Max(st.x, ed.x))
  {
    var ps, pe := lib.polar(r, s), lib.polar(r, e);
    assert -r <= ps.x <= r && -r <= ps.y <= r;
    assert -r <= pe.x <= r && -r <= pe.y <= r;
    if s == 0.0 { assert ps == Point(r, 0.0); }
    if e == 0.0 { assert pe == Point(r, 0.0); }
    if s == 90.0 { assert ps == Point(0.0, r); }
    if e == 90.0 { assert pe == Point(0.0, r); }
    if s == 180.0 { assert ps == Point(-r, 0.0); }
    if e == 180.0 { assert pe == Point(-r, 0.0); }
    if s == 270.0 { assert ps == Point(0.0, -r); }
    if e == 270.0 { assert pe == Point(0.0, -r); }
  }

  /**
   * Counterexample: on the quarter arc from 0 to 90 degrees around (10, 0)
   * with radius 1, the box as written has its bottom (10, an x value) above
   * its top (1) and does not hold the start point (11, 0).
   */
  lemma ArcBottomUsesX(lib: Lib)
    requires lib.polar(1.0, 0.0) == Point(1.0, 0.0) && lib.polar(1.0, 90.0) == Point(0.0, 1.0)
    ensures var b := ArcBoxAsWritten(lib, Point(10.0, 0.0), 1.0, 0.0, 90.0);
      b.btm == 10.0 && b.top == 1.0 && !WellFormed(b)
      && !Contains(b, PointAtAngle(lib, Point(10.0, 0.0), 1.0, 0.0))
  {
  }

  /**
   * Counterexample: the arc from 270 to 180 degrees wraps past 0 and passes 90
   * degrees on its second turn (450), but the box as written keeps the
   * endpoints' top 0 below the arc's highest point (0, 1).
   */
  lemma WrappedArcMissesTop(lib: Lib)
    requires lib.polar(1.0, 270.0) == Point(0.0, -1.0) && lib.polar(1.0, 180.0) == Point(-1.0, 0.0)
    ensures ArcContainsAngle(270.0, 180.0, 90.0)
    ensures var b := ArcBoxAsWritten(lib, Point(0.0, 0.0), 1.0, 270.0, 180.0);
      b.top == 0.0 && !Contains(b, Point(0.0, 1.0))
  {
  }

  // ------------------------------------------------------------------ dispatch

  /** The entity kinds the fold can be given: a LEADER box raises, and so does an empty polyline. */
  predicate Boxable(e: Entity)
  {
    !e.LeaderE? && (e.LWPolylineE? ==> |e.vertices| > 0)
  }

  /**
   * `getBB`.  DIMENSION, INSERT, MTEXT and TEXT boxes are not implemented
   * and, like unsupported kinds, give no box.
   */
  function GetBB(lib: Lib, e: Entity): (r: Option<Box>)
    requires Boxable(e)
    ensures r.Some? <==> e.ArcE? || e.CircleE? || e.LineE? || e.LWPolylineE? || e.PointE?
  {
    match e
    case ArcE(c, rad, s, t, _) => Some(ArcBox(lib, c, rad, s, t))
    case CircleE(c, rad, _) => Some(CircleBox(c, rad))
    case LineE(s, t, _) => Some(LineBox(s, t))
    case LWPolylineE(vs, _) => Some(HullBox(vs))
    case PointE(p, _) => Some(PointBox(p))
    case _ => None
  }

  /** The classes the fold queries, in `EntityClasses` order. */
  const EntityClasses: seq<string> :=
    ["ARC", "CIRCLE", "DIMENSION", "INSERT", "LEADER", "LINE", "LWPOLYLINE", "MTEXT", "POINT", "TEXT"]

  /** The entities in the order the fold visits them: class by class, then modelspace order. */
  function ByClass(es: seq<Entity>, classes: seq<string>): (r: seq<Entity>)
    ensures forall e :: e in r <==> e in es && DxfType(e) in classes
  {
    if |classes| == 0 then [] else Query(es, classes[0]) + ByClass(es, classes[1..])
  }

  /** Merging two optional boxes: the side-wise min/max when both exist. */
  function Join(a: Option<Box>, b: Option<Box>): Option<Box>
  {
    if b.None? then a
    else if a.None? then b
    else Some(Box(Min(a.value.lft, b.value.lft), Min(a.value.btm, b.value.btm),
                  Max(a.value.rgt, b.value.rgt), Max(a.value.top, b.value.top)))
  }

  /** The fold over `es` in order, the specification of the `DrawingBB` loop. */
  function FoldBB(lib: Lib, es: seq<Entity>): Option<Box>
    requires forall e :: e in es ==> Boxable(e)
  {
    if |es| == 0 then None
    else Join(FoldBB(lib, es[..|es| - 1]), GetBB(lib, es[|es| - 1]))
  }

  /**
   * The fold gives no box exactly when no entity has one; otherwise it covers
   * every entity box and each of its sides is a side of some entity box.
   */
  lemma FoldBBSound(lib: Lib, es: seq<Entity>)
    requires forall e :: e in es ==> Boxable(e)
    ensures FoldBB(lib, es).None? <==> forall e :: e in es ==> GetBB(lib, e).None?
    ensures FoldBB(lib, es).Some? ==>
      forall e :: e in es && GetBB(lib, e).Some? ==> Encloses(FoldBB(lib, es).value, GetBB(lib, e).value)
    ensures FoldBB(lib, es).Some? ==> Attained(lib, es, FoldBB(lib, es).value)
  {
    FoldBBNone(lib, es);
    FoldBBCovers(lib, es);
    FoldBBAttained(lib, es);
  }

  /** How a join relates to its two sides. */
  lemma JoinSound(f: Option<Box>, g: Option<Box>)
    ensures Join(f, g).None? <==> f.None? && g.None?
    ensures f.None? ==> Join(f, g) == g
    ensures g.None? ==> Join(f, g) == f
    ensures f.Some? && g.Some? ==> var h := Join(f, g).value;
      Encloses(h, f.value) && Encloses(h, g.value)
      && (h.lft == f.value.lft || h.lft == g.value.lft) && (h.btm == f.value.btm || h.btm == g.value.btm)
      && (h.rgt == f.value.rgt || h.rgt == g.value.rgt) && (h.top == f.value.top || h.top == g.value.top)
  {
  }

  /** The last entity and the ones before it. */
  lemma LastSplit(es: seq<Entity>)
    requires |es| > 0
    ensures forall e :: e in es <==> e in es[..|es| - 1] || e == es[|es| - 1]
  {
    assert es == es[..|es| - 1] + [es[|es| - 1]];
  }

  lemma {:induction false} FoldBBNone(lib: Lib, es: seq<Entity>)
    requires forall e :: e in es ==> Boxable(e)
    ensures FoldBB(lib, es).None? <==> forall e :: e in es ==> GetBB(lib, e).None?
  {
    if |es| > 0 {
      var init := es[..|es| - 1];
      FoldBBNone(lib, init);
      LastSplit(es);
      JoinSound(FoldBB(lib, init), GetBB(lib, es[|es| - 1]));
    }
  }

  lemma {:induction false} FoldBBCovers(lib: Lib, es: seq<Entity>)
    requires forall e :: e in es ==> Boxable(e)
    ensures FoldBB(lib, es).Some? ==>
      forall e :: e in es && GetBB(lib, e).Some? ==> Encloses(FoldBB(lib, es).value, GetBB(lib, e).value)
  {
    if |es| > 0 {
      var init := es[..|es| - 1];
      FoldBBCovers(lib, init);
      FoldBBNone(lib, init);
      LastSplit(es);
      JoinSound(FoldBB(lib, init), GetBB(lib, es[|es| - 1]));
    }
  }

  lemma {:induction false} FoldBBAttained(lib: Lib, es: seq<Entity>)
    requires forall e :: e in es ==> Boxable(e)
    ensures FoldBB(lib, es).Some? ==> Attained(lib, es, FoldBB(lib, es).value)
  {
    if |es| > 0 {
      var init := es[..|es| - 1];
      FoldBBAttained(lib, init);
      LastSplit(es);
      JoinSound(FoldBB(lib, init), GetBB(lib, es[|es| - 1]));
    }
  }

  /**
   * `DrawingBB`: the fold of the per-entity boxes into one.  It gives no box
   * exactly when no entity has one; otherwise the result covers every entity
   * box and each of its sides is a side of some entity box.
   */
  method DrawingBB(lib: Lib, es: seq<Entity>) returns (bb: Option<Box>)
    requires forall e :: e in es ==> Boxable(e)
    ensures bb.None? <==> forall e :: e in es ==> GetBB(lib, e).None?
    ensures bb.Some? ==> Bounds(lib, es, bb.value)
  {
    var order := ByClass(es, EntityClasses);
    bb := None;
    var k := 0;
    while k < |order|
      invariant 0 <= k <= |order|
      invariant bb == FoldBB(lib, order[..k])
    {
      assert order[..k + 1][..k] == order[..k];
      var b := GetBB(lib, order[k]);
      if b.None? {
      } else if bb.None? {
        bb := b;
      } else {
        var d := bb.value;
        bb := Some(Box(Min(d.lft, b.value.lft), Min(d.btm, b.value.btm),
                       Max(d.rgt, b.value.rgt), Max(d.top, b.value.top)));
      }
      k := k + 1;
    }
    assert order[..k] == order;
    FoldBBSound(lib, order);
    OrderKeepsBoxes(lib, es, order);
  }

  /** Every entity that has a box is visited, and every visited entity is in the drawing. */
  lemma OrderKeepsBoxes(lib: Lib, es: seq<Entity>, order: seq<Entity>)
    requires forall e :: e in es ==> Boxable(e)
    requires order == ByClass(es, EntityClasses)
    ensures forall e :: e in order ==> e in es
    ensures forall e :: e in es && GetBB(lib, e).Some? ==> e in order
  {
    forall e | e in es && GetBB(lib, e).Some? ensures e in order {
      assert DxfType(e) in EntityClasses;
    }
  }

  /** `b` covers the box of every entity in `es` that has one, and each of its sides is attained. */
  ghost predicate Bounds(lib: Lib, es: seq<Entity>, b: Box)
    requires forall e :: e in es ==> Boxable(e)
  {
    (forall e :: e in es && GetBB(lib, e).Some? ==> Encloses(b, GetBB(lib, e).value))
    && Attained(lib, es, b)
  }

  /** Each side of `b` is the same side of the box of some entity in `es`. */
  ghost predicate Attained(lib: Lib, es: seq<Entity>, b: Box)
    requires forall e :: e in es ==> Boxable(e)
  {
    (exists e :: e in es && GetBB(lib, e).Some? && GetBB(lib, e).value.lft == b.lft)
    && (exists e :: e in es && GetBB(lib, e).Some? && GetBB(lib, e).value.btm == b.btm)
    && (exists e :: e in es && GetBB(lib, e).Some? && GetBB(lib, e).value.rgt == b.rgt)
    && (exists e :: e in es && GetBB(lib, e).Some? && GetBB(lib, e).value.top == b.top)
  }
}
