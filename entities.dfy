/**
 * The drawing as the inspectors see it: the modelspace entities with the DXF
 * attributes they read, and the layer table.  Entities the inspectors only
 * dispatch on (MTEXT, INSERT, LEADER) keep no geometry.
 */
module Entities {
  import opened Geometry

  datatype Entity =
    | LineE(start: Point, end: Point, layer: string)
    | CircleE(center: Point, radius: real, layer: string)
    | ArcE(center: Point, radius: real, startAngle: real, endAngle: real, layer: string)
    | PointE(location: Point, layer: string)
    /** `placement` is the point `get_placement()` returns for the text's alignment. */
    | TextE(placement: Point, layer: string)
    | MTextE(layer: string)
    | DimensionE(textMidpoint: Point, layer: string)
    | InsertE(layer: string)
    | LeaderE(layer: string)
    | LWPolylineE(vertices: seq<Point>, layer: string)
    | OtherE(dxftype: string, layer: string)

  /** A layer-table entry: its name and its linetype name. */
  datatype LayerDef = LayerDef(name: string, linetype: string)

  /** A document: its layer table and its modelspace entities, in modelspace order. */
  datatype Drawing = Drawing(layers: seq<LayerDef>, entities: seq<Entity>)

  /** `entity.dxftype()`. */
  function DxfType(e: Entity): string
  {
    match e
    case LineE(_, _, _) => "LINE"
    case CircleE(_, _, _) => "CIRCLE"
    case ArcE(_, _, _, _, _) => "ARC"
    case PointE(_, _) => "POINT"
    case TextE(_, _) => "TEXT"
    case MTextE(_) => "MTEXT"
    case DimensionE(_, _) => "DIMENSION"
    case InsertE(_) => "INSERT"
    case LeaderE(_) => "LEADER"
    case LWPolylineE(_, _) => "LWPOLYLINE"
    case OtherE(t, _) => t
  }

  /** The point at angle `deg` (degrees) on the circle of centre `c` and radius `r`. */
  function PointAtAngle(lib: Lib, c: Point, r: real, deg: real): Point
  {
    Add(c, lib.polar(r, deg))
  }

  /** `Arc.start_point` and `Arc.end_point`. */
  function ArcStartPoint(lib: Lib, e: Entity): Point
    requires e.ArcE?
  {
    PointAtAngle(lib, e.center, e.radius, e.startAngle)
  }

  function ArcEndPoint(lib: Lib, e: Entity): Point
    requires e.ArcE?
  {
    PointAtAngle(lib, e.center, e.radius, e.endAngle)
  }

  /** `modelspace().query(t)` for a single DXF type name: the entities of that type, in order. */
  function Query(es: seq<Entity>, t: string): (r: seq<Entity>)
    ensures |r| <= |es|
    ensures forall e :: e in r <==> e in es && DxfType(e) == t
  {
    if |es| == 0 then []
    else if DxfType(es[0]) == t then [es[0]] + Query(es[1..], t)
    else Query(es[1..], t)
  }

  /** The entities on the layer named `name`, in order. */
  function OnLayer(es: seq<Entity>, name: string): (r: seq<Entity>)
    ensures |r| <= |es|
    ensures forall e :: e in r <==> e in es && e.layer == name
  {
    if |es| == 0 then []
    else if es[0].layer == name then [es[0]] + OnLayer(es[1..], name)
    else OnLayer(es[1..], name)
  }

  /** The `start`/`end` attributes of the LINE entities among `es`, in order. */
  function LinesOf(es: seq<Entity>): (r: seq<Line>)
    ensures |r| <= |es|
  {
    if |es| == 0 then []
    else if es[0].LineE? then [Line(es[0].start, es[0].end)] + LinesOf(es[1..])
    else LinesOf(es[1..])
  }

  /** Every LINE entity gives its segment, and every segment comes from a LINE entity. */
  lemma {:induction false} LinesOfMembers(es: seq<Entity>)
    ensures forall e :: e in es && e.LineE? ==> Line(e.start, e.end) in LinesOf(es)
    ensures forall l :: l in LinesOf(es) ==> exists e :: e in es && e.LineE? && l == Line(e.start, e.end)
  {
    if |es| > 0 {
      LinesOfMembers(es[1..]);
      assert forall e :: e in es ==> e == es[0] || e in es[1..];
      forall l | l in LinesOf(es)
        ensures exists e :: e in es && e.LineE? && l == Line(e.start, e.end)
      {
        if es[0].LineE? && l == Line(es[0].start, es[0].end) {
          assert es[0] in es;
        } else {
          var e :| e in es[1..] && e.LineE? && l == Line(e.start, e.end);
          assert e in es;
        }
      }
    }
  }
}
