/**
 * `CheckOuterObject` and its `Detect` class: every POINT, LINE, CIRCLE, ARC,
 * TEXT and DIMENSION whose reference point lies more than 5 units outside
 * the frame rectangle becomes one numbered finding.
 */
module CheckOuterObject {
  import opened Geometry
  import opened Entities
  import opened CheckResults
  import opened SeqFacts

  const InspectName: string := "輪郭線外オブジェクト検出"
  /** The margin beyond the frame within which an object still counts as inside. */
  const Tol: real := 5.0
  const ResultColor: int := 3
  const NoneCaption: string := "輪郭線外にオブジェクトはありません"
  const NoneDesc: string := "輪郭線外にオブジェクトが存在しませんでした"

  /**
   * `pointOutOfRange`: the point is more than `Tol` left of, right of, below
   * or above the frame whose bottom-left corner is fp[0] and top-right fp[1].
   */
  predicate PointOutOfRange(fp: seq<Point>, p: Point)
    requires |fp| == 2
  {
    p.x < fp[0].x - Tol || fp[1].x + Tol < p.x || p.y < fp[0].y - Tol || fp[1].y + Tol < p.y
  }

  /** Out of range is exactly outside the frame widened by `Tol` on every side; the frame itself is never out. */
  lemma PointOutOfRangeMeaning(fp: seq<Point>, p: Point)
    requires |fp| == 2
    ensures PointOutOfRange(fp, p) <==>
      !(fp[0].x - Tol <= p.x <= fp[1].x + Tol && fp[0].y - Tol <= p.y <= fp[1].y + Tol)
    ensures fp[0].x <= p.x <= fp[1].x && fp[0].y <= p.y <= fp[1].y ==> !PointOutOfRange(fp, p)
  {
  }

  /** The entity kinds `detectOuterObject` looks at, in the order it looks at them. */
  const DetectedTypes: seq<string> := ["POINT", "LINE", "CIRCLE", "ARC", "TEXT", "DIMENSION"]

  /** The point each detector tests: a location, a line's midpoint, a centre, a text placement, a dimension's text midpoint. */
  function TestedPoint(e: Entity): (r: Option<Point>)
    ensures r.Some? ==> DxfType(e) in DetectedTypes
  {
    match e
    case PointE(location, _) => Some(location)
    case LineE(start, end, _) => Some(Midpoint(start, end))
    case CircleE(center, _, _) => Some(center)
    case ArcE(center, _, _, _, _) => Some(center)
    case TextE(placement, _) => Some(placement)
    case DimensionE(textMidpoint, _) => Some(textMidpoint)
    case _ => None
  }

  /** The arc detector's marker angle as written: half the sweep, or 0 for an arc through 0 degrees. */
  function MiddleAngleAsWritten(startAngle: real, endAngle: real): real
  {
    if startAngle > endAngle then 0.0 else (endAngle - startAngle) / 2.0
  }

  /** An 80-100 degree arc gets its marker at 10 degrees, off the arc. */
  lemma MiddleAngleAsWrittenOffArc()
    ensures var m := MiddleAngleAsWritten(80.0, 100.0); !(80.0 <= m <= 100.0)
  {
  }

  /** The middle of the arc's sweep, or 0 for an arc through 0 degrees. */
  function MiddleAngle(startAngle: real, endAngle: real): real
  {
    if startAngle > endAngle then 0.0 else (startAngle + endAngle) / 2.0
  }

  /** The marker angle lies on the arc: inside [start, end], or for a wrapped arc on its [0, end] part. */
  lemma MiddleAngleOnArc(startAngle: real, endAngle: real)
    ensures startAngle <= endAngle ==> startAngle <= MiddleAngle(startAngle, endAngle) <= endAngle
    ensures endAngle < startAngle && 0.0 <= endAngle ==> 0.0 <= MiddleAngle(startAngle, endAngle) <= endAngle
  {
  }

  /** One out-of-frame hit: the marker position, the caption and the description of the kind. */
  datatype Hit = Hit(pos: Point, caption: string, desc: string)

  /**
   * The hit a detected entity gives: the marker is the tested point, except
   * that circles are marked on their circumference at 45 degrees and arcs
   * at the middle of their sweep (the corrected `MiddleAngle`).
   */
  function HitOf(lib: Lib, e: Entity): (h: Hit)
    requires TestedPoint(e).Some?
    ensures !e.CircleE? && !e.ArcE? ==> h.pos == TestedPoint(e).value
    ensures e.CircleE? ==> h.pos == PointAtAngle(lib, e.center, e.radius, 45.0)
    ensures e.ArcE? ==> h.pos == PointAtAngle(lib, e.center, e.radius, MiddleAngle(e.startAngle, e.endAngle))
  {
    match e
    case PointE(location, _) => Hit(location, "点", "点が輪郭線外に存在します")
    case LineE(start, end, _) => Hit(Midpoint(start, end), "直線", "直線が枠外に存在します")
    case CircleE(center, r, _) => Hit(PointAtAngle(lib, center, r, 45.0), "円", "円が枠外に存在します")
    case ArcE(center, r, s, t, _) => Hit(PointAtAngle(lib, center, r, MiddleAngle(s, t)), "円弧", "円弧が枠外に存在します")
    case TextE(placement, _) => Hit(placement, "文字", "文字が枠外に存在します")
    case DimensionE(textMidpoint, _) => Hit(textMidpoint, "寸法線", "寸法線が枠外に存在します")
  }

  /** Each detector has its own caption: two hits share a caption exactly when their entities share a DXF type. */
  lemma HitCaptionNamesType(lib: Lib, e1: Entity, e2: Entity)
    requires TestedPoint(e1).Some? && TestedPoint(e2).Some?
    ensures HitOf(lib, e1).caption == HitOf(lib, e2).caption <==> DxfType(e1) == DxfType(e2)
  {
  }

  /** The entity is one a detector looks at and its tested point is out of range. */
  predicate Reported(fp: seq<Point>, e: Entity)
    requires |fp| == 2
  {
    TestedPoint(e).Some? && PointOutOfRange(fp, TestedPoint(e).value)
  }

  /** `h` is the hit of some reported entity of `q`. */
  ghost predicate HitFrom(lib: Lib, fp: seq<Point>, q: seq<Entity>, h: Hit)
    requires |fp| == 2
  {
    exists e :: e in q && Reported(fp, e) && h == HitOf(lib, e)
  }

  /** The reported entities of `q`, in order. */
  function ReportedIn(fp: seq<Point>, q: seq<Entity>): (r: seq<Entity>)
    requires |fp| == 2
    ensures |r| <= |q|
    ensures forall i :: 0 <= i < |r| ==> Reported(fp, r[i])
  {
    if |q| == 0 then []
    else ReportedIn(fp, q[..|q| - 1]) + (if Reported(fp, q[|q| - 1]) then [q[|q| - 1]] else [])
  }

  /** Each reported entity is kept as often as it occurs in `q`, and every other entity is dropped. */
  lemma {:induction false} ReportedInMembers(fp: seq<Point>, q: seq<Entity>)
    requires |fp| == 2
    ensures forall e :: multiset(ReportedIn(fp, q))[e] == if Reported(fp, e) then multiset(q)[e] else 0
    decreases |q|
  {
    if |q| > 0 {
      var init, e := q[..|q| - 1], q[|q| - 1];
      assert q == init + [e];
      assert multiset(q) == multiset(init) + multiset{e};
      ReportedInMembers(fp, init);
    }
  }

  /** The hits of the reported entities among `q`, in order. */
  function Hits(lib: Lib, fp: seq<Point>, q: seq<Entity>): (r: seq<Hit>)
    requires |fp| == 2
    ensures |r| <= |q|
    ensures forall h :: h in r <==> HitFrom(lib, fp, q, h)
  {
    if |q| == 0 then []
    else
      var init, e := q[..|q| - 1], q[|q| - 1];
      assert q == init + [e];
      var r := Hits(lib, fp, init) + (if Reported(fp, e) then [HitOf(lib, e)] else []);
      assert forall h :: HitFrom(lib, fp, q, h) <==> HitFrom(lib, fp, init, h) || (Reported(fp, e) && h == HitOf(lib, e));
      r
  }

  /** One hit per reported entity of `q`: the i-th hit is the hit of the i-th reported entity. */
  lemma {:induction false} HitsOneEach(lib: Lib, fp: seq<Point>, q: seq<Entity>)
    requires |fp| == 2
    ensures |Hits(lib, fp, q)| == |ReportedIn(fp, q)|
    ensures forall i :: 0 <= i < |Hits(lib, fp, q)| ==> Hits(lib, fp, q)[i] == HitOf(lib, ReportedIn(fp, q)[i])
    decreases |q|
  {
    if |q| > 0 {
      HitsOneEach(lib, fp, q[..|q| - 1]);
    }
  }

  /** The finding for hit `h` with ordinal k. */
  function Finding(k: nat, h: Hit): CheckResult
  {
    CheckResult(k, InspectName, true, Some(h.pos), h.caption, h.desc, ResultColor)
  }

  /** The findings of `hits`, numbered from k. */
  function Numbered(hits: seq<Hit>, k: nat): (r: seq<CheckResult>)
    ensures |r| == |hits| && NumberedFrom(r, k)
    ensures forall i :: 0 <= i < |hits| ==> r[i] == Finding(k + i, hits[i])
  {
    seq(|hits|, i requires 0 <= i < |hits| => Finding(k + i, hits[i]))
  }

  /** The hits of all six detectors, in detector order. */
  function AllHits(lib: Lib, es: seq<Entity>, fp: seq<Point>): seq<Hit>
    requires |fp| == 2
  {
    Hits(lib, fp, Query(es, "POINT")) + Hits(lib, fp, Query(es, "LINE")) + Hits(lib, fp, Query(es, "CIRCLE"))
    + Hits(lib, fp, Query(es, "ARC")) + Hits(lib, fp, Query(es, "TEXT")) + Hits(lib, fp, Query(es, "DIMENSION"))
  }

  /** Without reported entities there are no hits. */
  lemma {:induction false} HitsNone(lib: Lib, fp: seq<Point>, q: seq<Entity>)
    requires |fp| == 2 && forall e :: e in q ==> !Reported(fp, e)
    ensures Hits(lib, fp, q) == []
    decreases |q|
  {
    if |q| > 0 {
      HitsNone(lib, fp, q[..|q| - 1]);
    }
  }

  /** The hits of all detectors are exactly those of the reported entities of the drawing. */
  lemma AllHitsMembers(lib: Lib, es: seq<Entity>, fp: seq<Point>)
    requires |fp| == 2
    ensures forall h :: h in AllHits(lib, es, fp) <==> HitFrom(lib, fp, es, h)
  {
    forall h
      ensures h in AllHits(lib, es, fp) <==> HitFrom(lib, fp, es, h)
    {
      AllHitsOf(lib, es, fp, h);
      if HitFrom(lib, fp, es, h) {
        var e :| e in es && Reported(fp, e) && h == HitOf(lib, e);
        ReportedDetected(lib, es, fp, e);
      }
    }
  }

  /** A hit of all detectors is a hit of one detector's query. */
  lemma AllHitsOf(lib: Lib, es: seq<Entity>, fp: seq<Point>, h: Hit)
    requires |fp| == 2
    ensures h in AllHits(lib, es, fp) <==> exists t :: t in DetectedTypes && h in Hits(lib, fp, Query(es, t))
  {
    var hq := (t: string) => Hits(lib, fp, Query(es, t));
    InSixOf(DetectedTypes, hq, h);
    assert AllHits(lib, es, fp)
      == hq(DetectedTypes[0]) + hq(DetectedTypes[1]) + hq(DetectedTypes[2])
         + hq(DetectedTypes[3]) + hq(DetectedTypes[4]) + hq(DetectedTypes[5]);
  }

  /** A reported entity's hit is a hit of the query of its own type. */
  lemma ReportedDetected(lib: Lib, es: seq<Entity>, fp: seq<Point>, e: Entity)
    requires |fp| == 2 && e in es && Reported(fp, e)
    ensures var t := DxfType(e); t in DetectedTypes && HitOf(lib, e) in Hits(lib, fp, Query(es, t))
  {
    assert e in Query(es, DxfType(e));
    assert HitFrom(lib, fp, Query(es, DxfType(e)), HitOf(lib, e));
  }

  /** Keeping the reported entities distributes over concatenation. */
  lemma {:induction false} ReportedInAppend(fp: seq<Point>, a: seq<Entity>, b: seq<Entity>)
    requires |fp| == 2
    ensures ReportedIn(fp, a + b) == ReportedIn(fp, a) + ReportedIn(fp, b)
    decreases |b|
  {
    if |b| == 0 {
      assert a + b == a;
    } else {
      var b' := b[..|b| - 1];
      ReportedInAppend(fp, a, b');
      assert (a + b)[..|a + b| - 1] == a + b';
      assert (a + b)[|a + b| - 1] == b[|b| - 1];
    }
  }

  /** A query over one more entity in front keeps that entity exactly when it is reported and of the queried type. */
  lemma QueryReportedStep(fp: seq<Point>, e: Entity, rest: seq<Entity>, t: string)
    requires |fp| == 2
    ensures |ReportedIn(fp, Query([e] + rest, t))|
      == (if Reported(fp, e) && DxfType(e) == t then 1 else 0) + |ReportedIn(fp, Query(rest, t))|
  {
    assert ([e] + rest)[1..] == rest;
    assert [e][..0] == [];
    if DxfType(e) == t {
      assert Query([e] + rest, t) == [e] + Query(rest, t);
      ReportedInAppend(fp, [e], Query(rest, t));
    }
  }

  /** Every reported entity is looked at by exactly one of the six detectors. */
  lemma {:induction false} ReportedSplit(fp: seq<Point>, es: seq<Entity>)
    requires |fp| == 2
    ensures |ReportedIn(fp, es)|
      == |ReportedIn(fp, Query(es, "POINT"))| + |ReportedIn(fp, Query(es, "LINE"))| + |ReportedIn(fp, Query(es, "CIRCLE"))|
         + |ReportedIn(fp, Query(es, "ARC"))| + |ReportedIn(fp, Query(es, "TEXT"))| + |ReportedIn(fp, Query(es, "DIMENSION"))|
    decreases |es|
  {
    if |es| > 0 {
      var e, rest := es[0], es[1..];
      assert es == [e] + rest;
      ReportedSplit(fp, rest);
      assert |ReportedIn(fp, es)| == (if Reported(fp, e) then 1 else 0) + |ReportedIn(fp, rest)| by {
        assert [e][..0] == [];
        ReportedInAppend(fp, [e], rest);
      }
      QueryReportedStep(fp, e, rest, "POINT");
      QueryReportedStep(fp, e, rest, "LINE");
      QueryReportedStep(fp, e, rest, "CIRCLE");
      QueryReportedStep(fp, e, rest, "ARC");
      QueryReportedStep(fp, e, rest, "TEXT");
      QueryReportedStep(fp, e, rest, "DIMENSION");
      OneDetector(fp, e);
    }
  }

  /** A reported entity has exactly one of the six detected types. */
  lemma OneDetector(fp: seq<Point>, e: Entity)
    requires |fp| == 2
    ensures (if Reported(fp, e) && DxfType(e) == "POINT" then 1 else 0) + (if Reported(fp, e) && DxfType(e) == "LINE" then 1 else 0)
      + (if Reported(fp, e) && DxfType(e) == "CIRCLE" then 1 else 0) + (if Reported(fp, e) && DxfType(e) == "ARC" then 1 else 0)
      + (if Reported(fp, e) && DxfType(e) == "TEXT" then 1 else 0) + (if Reported(fp, e) && DxfType(e) == "DIMENSION" then 1 else 0)
      == if Reported(fp, e) then 1 else 0
  {
  }

  /** The six detectors together give one hit per reported entity of the drawing. */
  lemma AllHitsCount(lib: Lib, es: seq<Entity>, fp: seq<Point>)
    requires |fp| == 2
    ensures |AllHits(lib, es, fp)| == |ReportedIn(fp, es)|
  {
    HitsOneEach(lib, fp, Query(es, "POINT"));
    HitsOneEach(lib, fp, Query(es, "LINE"));
    HitsOneEach(lib, fp, Query(es, "CIRCLE"));
    HitsOneEach(lib, fp, Query(es, "ARC"));
    HitsOneEach(lib, fp, Query(es, "TEXT"));
    HitsOneEach(lib, fp, Query(es, "DIMENSION"));
    ReportedSplit(fp, es);
  }

  /** The one finding when nothing is outside. */
  const NoneResult: CheckResult := CheckResult(1, InspectName, true, None, NoneCaption, NoneDesc, ResultColor)

  /** `Detect(doc, draw_doc, framePoint).results`. */
  function OuterResults(lib: Lib, es: seq<Entity>, fp: seq<Point>): seq<CheckResult>
  {
    if |fp| != 2 then []
    else
      var hits := AllHits(lib, es, fp);
      if |hits| == 0 then [NoneResult] else Numbered(hits, 1)
  }

  /** The findings: none without a two-point frame, otherwise ordinals 1..N, all errors of this inspection. */
  lemma OuterResultsNumbered(lib: Lib, es: seq<Entity>, fp: seq<Point>)
    ensures var rs := OuterResults(lib, es, fp);
      (|fp| != 2 ==> rs == [])
      && (|fp| == 2 ==> |rs| >= 1)
      && NumberedFrom(rs, 1)
      && (forall r :: r in rs ==> r.error && r.checkType == InspectName && r.color == ResultColor)
  {
  }

  /**
   * With a two-point frame: exactly the one position-less finding when
   * nothing is outside; otherwise one finding per reported entity, every
   * finding has a position, and each reported entity has a finding at its
   * marker with its kind's caption.
   */
  lemma OuterResultsReported(lib: Lib, es: seq<Entity>, fp: seq<Point>)
    requires |fp| == 2
    ensures var rs := OuterResults(lib, es, fp);
      ((forall e :: e in es ==> !Reported(fp, e)) ==> rs == [NoneResult])
      && ((exists e :: e in es && Reported(fp, e)) ==>
            |rs| == |ReportedIn(fp, es)|
            && (forall r :: r in rs ==> r.pos.Some?)
            && forall e :: e in es && Reported(fp, e) ==>
                 exists r :: r in rs && r.pos == Some(HitOf(lib, e).pos) && r.caption == HitOf(lib, e).caption)
  {
    var hits := AllHits(lib, es, fp);
    var rs := OuterResults(lib, es, fp);
    AllHitsMembers(lib, es, fp);
    if exists e :: e in es && Reported(fp, e) {
      var e :| e in es && Reported(fp, e);
      assert HitFrom(lib, fp, es, HitOf(lib, e));
      assert rs == Numbered(hits, 1);
      AllHitsCount(lib, es, fp);
      forall e | e in es && Reported(fp, e)
        ensures exists r :: r in rs && r.pos == Some(HitOf(lib, e).pos) && r.caption == HitOf(lib, e).caption
      {
        assert HitFrom(lib, fp, es, HitOf(lib, e));
        var i :| 0 <= i < |hits| && hits[i] == HitOf(lib, e);
        assert rs[i] == Finding(1 + i, hits[i]);
      }
    } else {
      HitsNone(lib, fp, Query(es, "POINT"));
      HitsNone(lib, fp, Query(es, "LINE"));
      HitsNone(lib, fp, Query(es, "CIRCLE"));
      HitsNone(lib, fp, Query(es, "ARC"));
      HitsNone(lib, fp, Query(es, "TEXT"));
      HitsNone(lib, fp, Query(es, "DIMENSION"));
    }
  }

  /** `Detect`: the frame points, the running count and the findings so far. */
  class Detect {
    var framePoint: seq<Point>
    var count: nat
    var results: seq<CheckResult>

    /** Runs the detection on the modelspace entities `es`; the polyline explode is the caller's. */
    constructor (lib: Lib, es: seq<Entity>, framePoint: seq<Point>)
      ensures this.framePoint == framePoint
      ensures results == OuterResults(lib, es, framePoint) && count == |results|
    {
      this.framePoint := framePoint;
      count := 0;
      results := [];
      new;
      DetectOuterObject(lib, es);
    }

    /** `detectOuterObject`: the six detectors in order, then the position-less finding if none fired. */
    method DetectOuterObject(lib: Lib, es: seq<Entity>)
      requires count == 0 && results == []
      modifies this
      ensures framePoint == old(framePoint)
      ensures results == OuterResults(lib, es, framePoint) && count == |results|
    {
      if |framePoint| != 2 {
        return;
      }
      ghost var h1, h2, h3 := Hits(lib, framePoint, Query(es, "POINT")), Hits(lib, framePoint, Query(es, "LINE")),
        Hits(lib, framePoint, Query(es, "CIRCLE"));
      ghost var h4, h5, h6 := Hits(lib, framePoint, Query(es, "ARC")), Hits(lib, framePoint, Query(es, "TEXT")),
        Hits(lib, framePoint, Query(es, "DIMENSION"));
      DetectType(lib, Query(es, "POINT"), []);
      assert [] + h1 == h1;
      DetectType(lib, Query(es, "LINE"), h1);
      DetectType(lib, Query(es, "CIRCLE"), h1 + h2);
      DetectType(lib, Query(es, "ARC"), h1 + h2 + h3);
      DetectType(lib, Query(es, "TEXT"), h1 + h2 + h3 + h4);
      DetectType(lib, Query(es, "DIMENSION"), h1 + h2 + h3 + h4 + h5);
      ghost var hits := AllHits(lib, es, framePoint);
      assert hits == h1 + h2 + h3 + h4 + h5 + h6;
      assert results == Numbered(hits, 1);
      if count == 0 {
        Res(None, NoneCaption, NoneDesc);
      }
    }

    /**
     * `detectPoint`, `detectLines`, `detectCircles`, `detectArc`,
     * `detectText`, `detectDimension`: one finding per entity of `q`
     * whose tested point is out of range.
     */
    method DetectType(lib: Lib, q: seq<Entity>, ghost acc: seq<Hit>)
      requires |framePoint| == 2 && results == Numbered(acc, 1) && count == |results|
      modifies this
      ensures framePoint == old(framePoint) && count == |results|
      ensures results == Numbered(acc + Hits(lib, framePoint, q), 1)
    {
      assert acc + [] == acc;
      for i := 0 to |q|
        invariant framePoint == old(framePoint) && count == |results|
        invariant results == Numbered(acc + Hits(lib, framePoint, q[..i]), 1)
      {
        ghost var before := Hits(lib, framePoint, q[..i]);
        assert q[..i + 1][..i] == q[..i];
        var e := q[i];
        if Reported(framePoint, e) {
          var h := HitOf(lib, e);
          Res(Some(h.pos), h.caption, h.desc);
          NumberedSnoc(acc + before, h, 1);
          assert acc + Hits(lib, framePoint, q[..i + 1]) == (acc + before) + [h];
        } else {
          assert Hits(lib, framePoint, q[..i + 1]) == before;
        }
      }
      assert q[..|q|] == q;
    }

    /** `res`: count the hit and append its finding with the new count as ordinal. */
    method Res(pos: Option<Point>, caption: string, desc: string)
      modifies this
      ensures framePoint == old(framePoint) && count == old(count) + 1
      ensures results == old(results) + [CheckResult(count, InspectName, true, pos, caption, desc, ResultColor)]
    {
      count := count + 1;
      results := results + [CheckResult(count, InspectName, true, pos, caption, desc, ResultColor)];
    }
  }

  lemma NumberedSnoc(hits: seq<Hit>, h: Hit, k: nat)
    ensures Numbered(hits + [h], k) == Numbered(hits, k) + [Finding(k + |hits|, h)]
  {
  }

  lemma NumberedAppend(a: seq<Hit>, b: seq<Hit>, k: nat)
    ensures Numbered(a + b, k) == Numbered(a, k) + Numbered(b, k + |a|)
  {
  }

}
