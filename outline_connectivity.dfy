/**
 * `CheckOutlineConnectivity`: on the continuous layer with the most LINE,
 * CIRCLE and ARC entities, every pair of those entities is intersected
 * (`Intersection`). Per entity, the model counts all intersections and the
 * intersections that lie at one of its endpoints. Lines and arcs inside the
 * frame whose counts show a broken loop or a stray piece become findings.
 */
module OutlineConnectivity {
  import opened Geometry
  import opened Entities
  import opened CheckResults
  import opened OutlineCalculator
  import opened SeqFacts

  const InspectName: string := "外形線の接続性確認"
  const ResultColor: int := 7

  // ------------------------------------------------------------ entities

  /** The three entity types the intersection pass works on. */
  datatype Kind = LineK | CircleK | ArcK

  predicate IsKind(e: Entity, k: Kind)
  {
    match k
    case LineK => e.LineE?
    case CircleK => e.CircleE?
    case ArcK => e.ArcE?
  }

  /** A LINE, CIRCLE or ARC. */
  predicate Kinded(e: Entity)
  {
    e.LineE? || e.CircleE? || e.ArcE?
  }

  /**
   * `self.dict[t]`, corrected: the indices of the entities of kind k in
   * `ents`, in order, and the empty list when there is none.
   */
  function TypeList(ents: seq<Entity>, k: Kind): (r: seq<nat>)
    ensures |r| <= |ents|
    ensures forall i :: 0 <= i < |r| ==> r[i] < |ents| && IsKind(ents[r[i]], k)
    ensures forall i, j :: 0 <= i < j < |r| ==> r[i] < r[j]
    ensures forall n :: n in r <==> 0 <= n < |ents| && IsKind(ents[n], k)
  {
    if |ents| == 0 then []
    else
      var init := TypeList(ents[..|ents| - 1], k);
      assert forall i :: 0 <= i < |init| ==> ents[..|ents| - 1][init[i]] == ents[init[i]];
      init + (if IsKind(ents[|ents| - 1], k) then [|ents| - 1] else [])
  }

  /** No entity of `ents` has kind k. */
  predicate Missing(ents: seq<Entity>, k: Kind)
  {
    forall n :: 0 <= n < |ents| ==> !IsKind(ents[n], k)
  }

  /**
   * `self.dict.get(t)` as written: None when no entity has the type, which
   * the loops then iterate and raise a TypeError on.
   */
  function TypeListAsWritten(ents: seq<Entity>, k: Kind): (r: Option<seq<nat>>)
    ensures r.None? <==> Missing(ents, k)
    ensures r.Some? ==> r.value == TypeList(ents, k) && |r.value| > 0
  {
    var l := TypeList(ents, k);
    if |l| == 0 then None
    else
      assert l[0] in l;
      Some(l)
  }

  /**
   * `Intersection(continuousLines)` as written raises unless the six loops
   * all find their lists: a line/line pass needs LINE, the products need
   * both of their types, and so on down to arc/arc. The `except` clauses
   * catch only KeyError and IndexError.
   */
  predicate IntersectionRaisesAsWritten(ents: seq<Entity>)
  {
    var lines, circles, arcs := TypeListAsWritten(ents, LineK), TypeListAsWritten(ents, CircleK), TypeListAsWritten(ents, ArcK);
    lines.None? || (lines.None? || circles.None?) || (lines.None? || arcs.None?)
    || circles.None? || (circles.None? || arcs.None?) || arcs.None?
  }

  /** The pass as written survives only drawings whose outline has at least one line, one circle and one arc. */
  lemma IntersectionRaisesMeaning(ents: seq<Entity>)
    ensures IntersectionRaisesAsWritten(ents) <==> exists k: Kind :: Missing(ents, k)
  {
    if IntersectionRaisesAsWritten(ents) {
      if TypeListAsWritten(ents, LineK).None? {
        assert Missing(ents, LineK);
      } else if TypeListAsWritten(ents, CircleK).None? {
        assert Missing(ents, CircleK);
      } else {
        assert Missing(ents, ArcK);
      }
    }
  }

  /** An outline of four lines and nothing else, an ordinary rectangle, crashes the pass as written. */
  lemma RectangleRaisesAsWritten(p: Point, q: Point, r: Point, s: Point, layer: string)
    ensures IntersectionRaisesAsWritten([LineE(p, q, layer), LineE(q, r, layer), LineE(r, s, layer), LineE(s, p, layer)])
  {
    var ents := [LineE(p, q, layer), LineE(q, r, layer), LineE(r, s, layer), LineE(s, p, layer)];
    assert Missing(ents, CircleK);
  }

  // ------------------------------------------------------------ counting

  /** The `[boundary, total]` counters of one entity: intersections at one of its endpoints, and all intersections. */
  datatype Tally = Tally(boundary: nat, total: nat)

  /**
   * What `Intersection` holds: the keys of `outLines` in insertion order
   * (each an index into the continuous lines), their counters, and `points`.
   */
  datatype Tallies = Tallies(keys: seq<nat>, counts: map<nat, Tally>, points: set<Point>)

  const NoTallies: Tallies := Tallies([], map[], {})

  /** The endpoints whose nearness counts: a line's start and end, an arc's `start_point` and `end_point`; a circle has none. */
  function Ends(lib: Lib, e: Entity): (r: seq<Point>)
    ensures |r| <= 2
    ensures e.CircleE? ==> r == []
  {
    if e.LineE? then [e.start, e.end]
    else if e.ArcE? then [ArcStartPoint(lib, e), ArcEndPoint(lib, e)]
    else []
  }

  /** `isRange`: the endpoint is within v * 0.01 of the point. */
  predicate IsRange(lib: Lib, endpoint: Point, p: Point, v: real)
  {
    Mag(lib, Sub(endpoint, p)) <= v * 0.01
  }

  /** How many of `ends` are in range of `p`. */
  function EndHits(lib: Lib, ends: seq<Point>, p: Point, v: real): (n: nat)
    ensures n <= |ends|
  {
    if |ends| == 0 then 0
    else EndHits(lib, ends[..|ends| - 1], p, v) + (if IsRange(lib, ends[|ends| - 1], p, v) then 1 else 0)
  }

  /** For two endpoints: one hit for each that is in range. */
  lemma EndHitsPair(lib: Lib, ends: seq<Point>, p: Point, v: real)
    requires |ends| == 2
    ensures EndHits(lib, ends, p, v) ==
      (if IsRange(lib, ends[0], p, v) then 1 else 0) + (if IsRange(lib, ends[1], p, v) then 1 else 0)
  {
    assert ends[..1][..0] == [];
  }

  /** The endpoint hits summed over the points of `pl`. */
  function SumHits(lib: Lib, ends: seq<Point>, pl: seq<Point>, v: real): (n: nat)
    ensures n <= |ends| * |pl|
  {
    if |pl| == 0 then 0
    else SumHits(lib, ends, pl[..|pl| - 1], v) + EndHits(lib, ends, pl[|pl| - 1], v)
  }

  /** The length of a line, `(end - start).magnitude`. */
  function Length(lib: Lib, e: Entity): real
    requires e.LineE?
  {
    Mag(lib, Direction(LineOf(e)))
  }

  /**
   * The increments `countInter` gives the counters of A and B for the
   * listed intersection points `pl` (not empty), by the pair of types; a
   * pair of types it has no branch for changes nothing.
   */
  function Delta(lib: Lib, ea: Entity, eb: Entity, pl: seq<Point>): (Tally, Tally)
    requires |pl| > 0
  {
    var n := |pl|;
    if ea.LineE? && eb.LineE? then
      var lenv := Max(Length(lib, ea), Length(lib, eb));
      (Tally(EndHits(lib, Ends(lib, ea), pl[0], lenv), 1), Tally(EndHits(lib, Ends(lib, eb), pl[0], lenv), 1))
    else if ea.LineE? && eb.CircleE? then
      (Tally(SumHits(lib, Ends(lib, ea), pl, Length(lib, ea)), n), Tally(0, n))
    else if ea.LineE? && eb.ArcE? then
      var v := Length(lib, ea);
      (Tally(SumHits(lib, Ends(lib, ea), pl, v), n), Tally(SumHits(lib, Ends(lib, eb), pl, v), n))
    else if ea.CircleE? && eb.CircleE? then
      (Tally(0, n), Tally(0, n))
    else if ea.CircleE? && eb.ArcE? then
      var lenv := Max(ea.radius, eb.radius);
      (Tally(0, n), Tally(SumHits(lib, Ends(lib, eb), pl, lenv), n))
    else if ea.ArcE? && eb.ArcE? then
      var lenv := Max(ea.radius, eb.radius);
      (Tally(n * EndHits(lib, Ends(lib, ea), pl[0], lenv), n), Tally(n * EndHits(lib, Ends(lib, eb), pl[0], lenv), n))
    else
      (Tally(0, 0), Tally(0, 0))
  }

  /** Every increment adds at most two boundary touches per intersection it counts. */
  lemma DeltaBound(lib: Lib, ea: Entity, eb: Entity, pl: seq<Point>)
    requires |pl| > 0
    ensures var (da, db) := Delta(lib, ea, eb, pl);
      da.boundary <= 2 * da.total && db.boundary <= 2 * db.total
  {
    var n := |pl|;
    if ea.ArcE? && eb.ArcE? {
      var lenv := Max(ea.radius, eb.radius);
      var ha, hb := EndHits(lib, Ends(lib, ea), pl[0], lenv), EndHits(lib, Ends(lib, eb), pl[0], lenv);
      assert n * ha <= 2 * n && n * hb <= 2 * n;
    }
  }

  lemma MulStep(i: nat, h: nat)
    ensures (i + 1) * h == i * h + h
  {
  }

  /** The counters of k, or `[0, 0]` when it has none yet. */
  function CountOf(st: Tallies, k: nat): Tally
  {
    if k in st.counts then st.counts[k] else Tally(0, 0)
  }

  /** `if not A in self.outLines: self.outLines[A] = [0, 0]`. */
  function WithEntry(st: Tallies, k: nat): (r: Tallies)
    ensures k in r.counts && r.counts.Keys == st.counts.Keys + {k} && r.points == st.points
    ensures r.counts[k] == CountOf(st, k) && forall j :: j in st.counts ==> r.counts[j] == st.counts[j]
  {
    if k in st.counts then st else Tallies(st.keys + [k], st.counts[k := Tally(0, 0)], st.points)
  }

  /** The counters of k raised by d. */
  function Bumped(st: Tallies, k: nat, d: Tally): (r: Tallies)
    requires k in st.counts
    ensures r.keys == st.keys && r.points == st.points && r.counts.Keys == st.counts.Keys
  {
    st.(counts := st.counts[k := Tally(st.counts[k].boundary + d.boundary, st.counts[k].total + d.total)])
  }

  /** `countInter(A, B, pointSet)` for the entities at indices a and b, with the point set listed as `pl`. */
  function CountStep(lib: Lib, ents: seq<Entity>, st: Tallies, a: nat, b: nat, pl: seq<Point>): Tallies
    requires a < |ents| && b < |ents|
  {
    var s := WithEntry(WithEntry(st, a), b);
    if |pl| == 0 then s
    else
      var (da, db) := Delta(lib, ents[a], ents[b], pl);
      Bumped(Bumped(s, a, da), b, db)
  }

  /** The calculator each pair loop applies, by the types of the pair; other pairs meet nowhere. */
  function PairPoints(lib: Lib, ea: Entity, eb: Entity): set<Point>
  {
    if ea.LineE? && eb.LineE? then CalInterLineAndLine(lib, LineOf(ea), LineOf(eb))
    else if ea.LineE? && eb.CircleE? then CalInterCircleAndLine(lib, LineOf(ea), RoundOf(eb))
    else if ea.LineE? && eb.ArcE? then CalInterArcAndLine(lib, LineOf(ea), eb)
    else if ea.CircleE? && eb.CircleE? then CalInterCircleAndCircle(lib, RoundOf(ea), RoundOf(eb))
    else if ea.CircleE? && eb.ArcE? then CalInterCircleAndArc(lib, RoundOf(ea), eb)
    else if ea.ArcE? && eb.ArcE? then CalInterArcAndArc(lib, ea, eb)
    else {}
  }

  /** The calculators as one function of the pair. */
  function Meet(lib: Lib): (Entity, Entity) -> set<Point>
  {
    (ea: Entity, eb: Entity) => PairPoints(lib, ea, eb)
  }

  /** One pass of a pair loop: the calculator, `countInter` on the listed points, and `points.update`. */
  function VisitStep(lib: Lib, enumerate: set<Point> -> seq<Point>, meet: (Entity, Entity) -> set<Point>, ents: seq<Entity>, st: Tallies, pair: (nat, nat)): Tallies
    requires pair.0 < |ents| && pair.1 < |ents|
  {
    var pts := meet(ents[pair.0], ents[pair.1]);
    var s := CountStep(lib, ents, st, pair.0, pair.1, enumerate(pts));
    s.(points := s.points + pts)
  }

  /** The passes `step` makes over `pairs`, in order. */
  function Fold(step: (Tallies, (nat, nat)) -> Tallies, st: Tallies, pairs: seq<(nat, nat)>): Tallies
    decreases |pairs|
  {
    if |pairs| == 0 then st else step(Fold(step, st, pairs[..|pairs| - 1]), pairs[|pairs| - 1])
  }

  /** Folding over p and then q is folding over p + q. */
  lemma {:induction false} FoldAppend(step: (Tallies, (nat, nat)) -> Tallies, st: Tallies, p: seq<(nat, nat)>, q: seq<(nat, nat)>)
    ensures Fold(step, st, p + q) == Fold(step, Fold(step, st, p), q)
    decreases |q|
  {
    if |q| == 0 {
      assert p + q == p;
    } else {
      AppendLast(p, q);
      FoldAppend(step, st, p, q[..|q| - 1]);
    }
  }

  /** One pass of a pair loop as a step function; a pair outside `ents` never occurs and changes nothing. */
  function Pass(lib: Lib, enumerate: set<Point> -> seq<Point>, meet: (Entity, Entity) -> set<Point>, ents: seq<Entity>): (Tallies, (nat, nat)) -> Tallies
  {
    (st: Tallies, pair: (nat, nat)) =>
      if pair.0 < |ents| && pair.1 < |ents| then VisitStep(lib, enumerate, meet, ents, st, pair) else st
  }

  /** The passes over `pairs`, in order. */
  function Visits(lib: Lib, enumerate: set<Point> -> seq<Point>, meet: (Entity, Entity) -> set<Point>, ents: seq<Entity>, st: Tallies, pairs: seq<(nat, nat)>): Tallies
  {
    Fold(Pass(lib, enumerate, meet, ents), st, pairs)
  }

  lemma VisitsSnoc(lib: Lib, enumerate: set<Point> -> seq<Point>, meet: (Entity, Entity) -> set<Point>, ents: seq<Entity>, st: Tallies, pairs: seq<(nat, nat)>, p: (nat, nat))
    requires p.0 < |ents| && p.1 < |ents|
    ensures Visits(lib, enumerate, meet, ents, st, pairs + [p]) == VisitStep(lib, enumerate, meet, ents, Visits(lib, enumerate, meet, ents, st, pairs), p)
  {
    assert (pairs + [p])[..|pairs|] == pairs;
  }

  /** Passing over p and then q is passing over p + q. */
  lemma VisitsAppend(lib: Lib, enumerate: set<Point> -> seq<Point>, meet: (Entity, Entity) -> set<Point>, ents: seq<Entity>, st: Tallies, p: seq<(nat, nat)>, q: seq<(nat, nat)>)
    ensures Visits(lib, enumerate, meet, ents, st, p + q) == Visits(lib, enumerate, meet, ents, Visits(lib, enumerate, meet, ents, st, p), q)
  {
    FoldAppend(Pass(lib, enumerate, meet, ents), st, p, q);
  }

  // ------------------------------------------------------------ pair orders

  /** The pairs (x, ys[j]) for lo <= j < hi, in order: the first iterations of an inner loop. */
  function Span(x: nat, ys: seq<nat>, lo: nat, hi: nat): seq<(nat, nat)>
    requires lo <= hi <= |ys|
    decreases hi
  {
    if hi == lo then [] else Span(x, ys, lo, hi - 1) + [(x, ys[hi - 1])]
  }

  /** The inner loop of outer iteration k of `for i ...: for j in range(i + 1, len(xs))`. */
  function TriRow(xs: seq<nat>): nat -> seq<(nat, nat)>
  {
    (k: nat) => if k < |xs| then Span(xs[k], xs, k + 1, |xs|) else []
  }

  /** The rows of the first n outer iterations of the triangle loops. */
  function TriRows(xs: seq<nat>, n: nat): seq<(nat, nat)>
  {
    Rows(TriRow(xs), n)
  }

  /** The pairs xs[i], xs[j] with i < j, in the order of the nested loops. */
  function TriPairs(xs: seq<nat>): seq<(nat, nat)>
  {
    TriRows(xs, |xs|)
  }

  /** The inner loop of outer iteration k of `for x in xs: for y in ys`. */
  function ProdRow(xs: seq<nat>, ys: seq<nat>): nat -> seq<(nat, nat)>
  {
    (k: nat) => if k < |xs| then Span(xs[k], ys, 0, |ys|) else []
  }

  /** The rows of the first n outer iterations of the product loops. */
  function ProdRows(xs: seq<nat>, ys: seq<nat>, n: nat): seq<(nat, nat)>
  {
    Rows(ProdRow(xs, ys), n)
  }

  /** The pairs of xs and ys, in the order of the nested loops. */
  function Prod(xs: seq<nat>, ys: seq<nat>): seq<(nat, nat)>
  {
    ProdRows(xs, ys, |xs|)
  }

  /** A span holds exactly the pairs of x with the elements in its index range. */
  lemma {:induction false} SpanSound(x: nat, ys: seq<nat>, lo: nat, hi: nat, p: (nat, nat)) returns (j: nat)
    requires lo <= hi <= |ys| && p in Span(x, ys, lo, hi)
    ensures lo <= j < hi && p == (x, ys[j])
    decreases hi
  {
    if p == (x, ys[hi - 1]) {
      j := hi - 1;
    } else {
      j := SpanSound(x, ys, lo, hi - 1, p);
    }
  }

  lemma {:induction false} SpanComplete(x: nat, ys: seq<nat>, lo: nat, hi: nat, j: nat)
    requires lo <= j < hi <= |ys|
    ensures (x, ys[j]) in Span(x, ys, lo, hi)
    decreases hi
  {
    if j < hi - 1 {
      SpanComplete(x, ys, lo, hi - 1, j);
    }
  }

  /** Every pair of the triangle is an earlier element with a later one. */
  lemma TriPairsSound(xs: seq<nat>, p: (nat, nat)) returns (i: nat, j: nat)
    requires p in TriPairs(xs)
    ensures i < j < |xs| && p == (xs[i], xs[j])
  {
    i := RowsSound(TriRow(xs), |xs|, p);
    j := SpanSound(xs[i], xs, i + 1, |xs|, p);
  }

  /** An earlier element with a later one is a pair of the triangle. */
  lemma TriPairsComplete(xs: seq<nat>, i: nat, j: nat)
    requires i < j < |xs|
    ensures (xs[i], xs[j]) in TriPairs(xs)
  {
    SpanComplete(xs[i], xs, i + 1, |xs|, j);
    RowsComplete(TriRow(xs), |xs|, i, (xs[i], xs[j]));
  }

  /** Every pair of the product is an element of xs with one of ys. */
  lemma ProdSound(xs: seq<nat>, ys: seq<nat>, p: (nat, nat)) returns (i: nat, j: nat)
    requires p in Prod(xs, ys)
    ensures i < |xs| && j < |ys| && p == (xs[i], ys[j])
  {
    i := RowsSound(ProdRow(xs, ys), |xs|, p);
    j := SpanSound(xs[i], ys, 0, |ys|, p);
  }

  /** An element of xs with one of ys is a pair of the product. */
  lemma ProdComplete(xs: seq<nat>, ys: seq<nat>, i: nat, j: nat)
    requires i < |xs| && j < |ys|
    ensures (xs[i], ys[j]) in Prod(xs, ys)
  {
    SpanComplete(xs[i], ys, 0, |ys|, j);
    RowsComplete(ProdRow(xs, ys), |xs|, i, (xs[i], ys[j]));
  }

  lemma TriRowsNext(xs: seq<nat>, i: nat)
    requires i < |xs|
    ensures TriRows(xs, i + 1) == TriRows(xs, i) + Span(xs[i], xs, i + 1, |xs|)
  {
    RowsNext(TriRow(xs), i);
  }

  lemma ProdRowsNext(xs: seq<nat>, ys: seq<nat>, i: nat)
    requires i < |xs|
    ensures ProdRows(xs, ys, i + 1) == ProdRows(xs, ys, i) + Span(xs[i], ys, 0, |ys|)
  {
    RowsNext(ProdRow(xs, ys), i);
  }

  /** One more outer iteration of the triangle loops is one more row of passes. */
  lemma TriVisitsStep(lib: Lib, enumerate: set<Point> -> seq<Point>, meet: (Entity, Entity) -> set<Point>, ents: seq<Entity>, st: Tallies, xs: seq<nat>, i: nat)
    requires i < |xs|
    ensures Visits(lib, enumerate, meet, ents, st, TriRows(xs, i + 1))
         == Visits(lib, enumerate, meet, ents, Visits(lib, enumerate, meet, ents, st, TriRows(xs, i)), Span(xs[i], xs, i + 1, |xs|))
  {
    TriRowsNext(xs, i);
    VisitsAppend(lib, enumerate, meet, ents, st, TriRows(xs, i), Span(xs[i], xs, i + 1, |xs|));
  }

  /** One more outer iteration of the product loops is one more row of passes. */
  lemma ProdVisitsStep(lib: Lib, enumerate: set<Point> -> seq<Point>, meet: (Entity, Entity) -> set<Point>, ents: seq<Entity>, st: Tallies, xs: seq<nat>, ys: seq<nat>, i: nat)
    requires i < |xs|
    ensures Visits(lib, enumerate, meet, ents, st, ProdRows(xs, ys, i + 1))
         == Visits(lib, enumerate, meet, ents, Visits(lib, enumerate, meet, ents, st, ProdRows(xs, ys, i)), Span(xs[i], ys, 0, |ys|))
  {
    ProdRowsNext(xs, ys, i);
    VisitsAppend(lib, enumerate, meet, ents, st, ProdRows(xs, ys, i), Span(xs[i], ys, 0, |ys|));
  }

  /** Indices below n. */
  predicate AllBelow(xs: seq<nat>, n: nat)
  {
    forall i :: 0 <= i < |xs| ==> xs[i] < n
  }

  /** The six loops' pairs, in the order `__init__` runs them. */
  function AllPairs(ents: seq<Entity>): seq<(nat, nat)>
  {
    var lines, circles, arcs := TypeList(ents, LineK), TypeList(ents, CircleK), TypeList(ents, ArcK);
    TriPairs(lines) + Prod(lines, circles) + Prod(lines, arcs) + TriPairs(circles) + Prod(circles, arcs) + TriPairs(arcs)
  }

  /** The state `Intersection(continuousLines)` leaves. */
  function Built(lib: Lib, enumerate: set<Point> -> seq<Point>, ents: seq<Entity>): Tallies
  {
    Visits(lib, enumerate, Meet(lib), ents, NoTallies, AllPairs(ents))
  }

  // ------------------------------------------------------------ Intersection

  /**
   * `Intersection`: the continuous lines it was built on, the `outLines`
   * counters keyed by entity (an index into `ents`) in insertion order, and
   * the set of all intersection points. `enumerate` is the order in which
   * `list(pointSet)` lists a set.
   */
  class Intersection {
    const lib: Lib
    const enumerate: set<Point> -> seq<Point>
    const meet: (Entity, Entity) -> set<Point>
    const ents: seq<Entity>
    var keys: seq<nat>
    var counts: map<nat, Tally>
    var points: set<Point>

    function State(): Tallies
      reads this
    {
      Tallies(keys, counts, points)
    }

    /** `__init__`: group the entities by type, then the six pair loops in order. */
    constructor (lib: Lib, enumerate: set<Point> -> seq<Point>, ents: seq<Entity>)
      ensures this.lib == lib && this.enumerate == enumerate && this.ents == ents && this.meet == Meet(lib)
      ensures State() == Built(lib, enumerate, ents)
    {
      this.lib := lib;
      this.enumerate := enumerate;
      this.meet := Meet(lib);
      this.ents := ents;
      keys := [];
      counts := map[];
      points := {};
      new;
      var lines, circles, arcs := GroupByType(ents);
      ghost var st := NoTallies;
      ghost var all := AllPairs(ents);
      VisitTriangle(lines);
      VisitProduct(lines, circles);
      VisitsAppend(lib, enumerate, meet, ents, st, TriPairs(lines), Prod(lines, circles));
      ghost var done := TriPairs(lines) + Prod(lines, circles);
      VisitProduct(lines, arcs);
      VisitsAppend(lib, enumerate, meet, ents, st, done, Prod(lines, arcs));
      done := done + Prod(lines, arcs);
      VisitTriangle(circles);
      VisitsAppend(lib, enumerate, meet, ents, st, done, TriPairs(circles));
      done := done + TriPairs(circles);
      VisitProduct(circles, arcs);
      VisitsAppend(lib, enumerate, meet, ents, st, done, Prod(circles, arcs));
      done := done + Prod(circles, arcs);
      VisitTriangle(arcs);
      VisitsAppend(lib, enumerate, meet, ents, st, done, TriPairs(arcs));
      done := done + TriPairs(arcs);
      assert done == all;
    }

    /** The grouping into `self.dict`: the lines, circles and arcs of `ents`, each in order. */
    static method GroupByType(ents: seq<Entity>) returns (lines: seq<nat>, circles: seq<nat>, arcs: seq<nat>)
      ensures lines == TypeList(ents, LineK) && circles == TypeList(ents, CircleK) && arcs == TypeList(ents, ArcK)
    {
      lines, circles, arcs := [], [], [];
      for i := 0 to |ents|
        invariant lines == TypeList(ents[..i], LineK)
        invariant circles == TypeList(ents[..i], CircleK)
        invariant arcs == TypeList(ents[..i], ArcK)
      {
        PrefixStep(ents, i);
        var e := ents[i];
        if e.LineE? {
          lines := lines + [i];
        } else if e.CircleE? {
          circles := circles + [i];
        } else if e.ArcE? {
          arcs := arcs + [i];
        }
      }
      assert ents[..|ents|] == ents;
    }

    /** The nested loops over the pairs xs[i], xs[j] with i < j (line/line, circle/circle, arc/arc). */
    method VisitTriangle(xs: seq<nat>)
      requires AllBelow(xs, |ents|)
      modifies this
      ensures State() == Visits(lib, enumerate, meet, ents, old(State()), TriPairs(xs))
    {
      ghost var st := State();
      for i := 0 to |xs|
        invariant State() == Visits(lib, enumerate, meet, ents, st, TriRows(xs, i))
      {
        VisitTriRow(xs, i, st);
      }
    }

    /** One outer iteration of the triangle loops: its inner loop, from i + 1 on. */
    method VisitTriRow(xs: seq<nat>, i: nat, ghost st: Tallies)
      requires AllBelow(xs, |ents|) && i < |xs|
      requires State() == Visits(lib, enumerate, meet, ents, st, TriRows(xs, i))
      modifies this
      ensures State() == Visits(lib, enumerate, meet, ents, st, TriRows(xs, i + 1))
    {
      VisitRow(xs[i], xs, i + 1);
      TriVisitsStep(lib, enumerate, meet, ents, st, xs, i);
    }

    /** The nested loops over the pairs of xs and ys (line/circle, line/arc, circle/arc). */
    method VisitProduct(xs: seq<nat>, ys: seq<nat>)
      requires AllBelow(xs, |ents|) && AllBelow(ys, |ents|)
      modifies this
      ensures State() == Visits(lib, enumerate, meet, ents, old(State()), Prod(xs, ys))
    {
      ghost var st := State();
      for i := 0 to |xs|
        invariant State() == Visits(lib, enumerate, meet, ents, st, ProdRows(xs, ys, i))
      {
        VisitProdRow(xs, ys, i, st);
      }
    }

    /** One outer iteration of the product loops: its inner loop over all of ys. */
    method VisitProdRow(xs: seq<nat>, ys: seq<nat>, i: nat, ghost st: Tallies)
      requires AllBelow(xs, |ents|) && AllBelow(ys, |ents|) && i < |xs|
      requires State() == Visits(lib, enumerate, meet, ents, st, ProdRows(xs, ys, i))
      modifies this
      ensures State() == Visits(lib, enumerate, meet, ents, st, ProdRows(xs, ys, i + 1))
    {
      VisitRow(xs[i], ys, 0);
      ProdVisitsStep(lib, enumerate, meet, ents, st, xs, ys, i);
    }

    /** One inner loop, `for j in range(lo, len(ys))`: intersect x with ys[j], count, and collect the points. */
    method VisitRow(x: nat, ys: seq<nat>, lo: nat)
      requires x < |ents| && AllBelow(ys, |ents|) && lo <= |ys|
      modifies this
      ensures State() == Visits(lib, enumerate, meet, ents, old(State()), Span(x, ys, lo, |ys|))
    {
      ghost var st := State();
      for j := lo to |ys|
        invariant State() == Visits(lib, enumerate, meet, ents, st, Span(x, ys, lo, j))
      {
        VisitsSnoc(lib, enumerate, meet, ents, st, Span(x, ys, lo, j), (x, ys[j]));
        Visit(x, ys[j]);
      }
    }

    /** The body of every pair loop: the calculator for the pair, `countInter`, and `points.update`. */
    method Visit(a: nat, b: nat)
      requires a < |ents| && b < |ents|
      modifies this
      ensures State() == VisitStep(lib, enumerate, meet, ents, old(State()), (a, b))
    {
      var pointSet := meet(ents[a], ents[b]);
      CountInter(a, b, pointSet);
      points := points + pointSet;
    }

    /** `countInter(A, B, pointSet)`. The increments of each entity are gathered over the point loop and added once. */
    method CountInter(a: nat, b: nat, pointSet: set<Point>)
      requires a < |ents| && b < |ents|
      modifies this
      ensures State() == CountStep(lib, ents, old(State()), a, b, enumerate(pointSet))
    {
      AddEntry(a);
      AddEntry(b);
      var pointList := enumerate(pointSet);
      if |pointList| != 0 {
        var da, db := Increments(ents[a], ents[b], pointList);
        Bump(a, da);
        Bump(b, db);
      }
    }

    /** The branches of `countInter` on the types of A and B. */
    method Increments(A: Entity, B: Entity, pointList: seq<Point>) returns (da: Tally, db: Tally)
      requires |pointList| > 0
      ensures (da, db) == Delta(lib, A, B, pointList)
    {
      if A.LineE? && B.LineE? {
        var lenv := Max(Length(lib, A), Length(lib, B));
        var ha := CountEnds(Ends(lib, A), pointList[0], lenv);
        var hb := CountEnds(Ends(lib, B), pointList[0], lenv);
        da, db := Tally(ha, 1), Tally(hb, 1);
      } else if A.LineE? && B.CircleE? {
        da, db := EachPoint(pointList, Ends(lib, A), Length(lib, A), [], 0.0);
      } else if A.LineE? && B.ArcE? {
        var v := Length(lib, A);
        da, db := EachPoint(pointList, Ends(lib, A), v, Ends(lib, B), v);
      } else if A.CircleE? && B.CircleE? {
        da, db := EachPoint(pointList, [], 0.0, [], 0.0);
      } else if A.CircleE? && B.ArcE? {
        var lenv := Max(A.radius, B.radius);
        da, db := EachPoint(pointList, [], 0.0, Ends(lib, B), lenv);
      } else if A.ArcE? && B.ArcE? {
        var lenv := Max(A.radius, B.radius);
        da, db := FirstPoint(pointList, Ends(lib, A), Ends(lib, B), lenv);
      } else {
        da, db := Tally(0, 0), Tally(0, 0);
      }
    }

    /** `if not A in self.outLines.keys(): self.outLines[A] = [0, 0]`. */
    method AddEntry(k: nat)
      modifies this
      ensures State() == WithEntry(old(State()), k)
    {
      if k !in counts {
        keys := keys + [k];
        counts := counts[k := Tally(0, 0)];
      }
    }

    /** Adds d to the counters of k. */
    method Bump(k: nat, d: Tally)
      requires k in counts
      modifies this
      ensures State() == Bumped(old(State()), k, d)
    {
      counts := counts[k := Tally(counts[k].boundary + d.boundary, counts[k].total + d.total)];
    }

    /** `for endpoint in [...]: if isRange(endpoint, p, v): ... += 1`. */
    method CountEnds(ends: seq<Point>, p: Point, v: real) returns (n: nat)
      ensures n == EndHits(lib, ends, p, v)
    {
      n := 0;
      for i := 0 to |ends|
        invariant n == EndHits(lib, ends[..i], p, v)
      {
        PrefixStep(ends, i);
        if IsRange(lib, ends[i], p, v) {
          n := n + 1;
        }
      }
      assert ends[..|ends|] == ends;
    }

    /**
     * `for point in pointList:` both totals rise by one, and the endpoints
     * of A (of B) within vA (vB) of the point raise A's (B's) boundary counter.
     */
    method EachPoint(pl: seq<Point>, endsA: seq<Point>, vA: real, endsB: seq<Point>, vB: real) returns (da: Tally, db: Tally)
      ensures da == Tally(SumHits(lib, endsA, pl, vA), |pl|)
      ensures db == Tally(SumHits(lib, endsB, pl, vB), |pl|)
    {
      da, db := Tally(0, 0), Tally(0, 0);
      for i := 0 to |pl|
        invariant da == Tally(SumHits(lib, endsA, pl[..i], vA), i)
        invariant db == Tally(SumHits(lib, endsB, pl[..i], vB), i)
      {
        PrefixStep(pl, i);
        var ha := CountEnds(endsA, pl[i], vA);
        var hb := CountEnds(endsB, pl[i], vB);
        da := Tally(da.boundary + ha, da.total + 1);
        db := Tally(db.boundary + hb, db.total + 1);
      }
      assert pl[..|pl|] == pl;
    }

    /**
     * The arc/arc point loop: both totals rise by one per point, and every
     * time the endpoints are tested against `pointList[0]`, with the larger radius.
     */
    method FirstPoint(pl: seq<Point>, endsA: seq<Point>, endsB: seq<Point>, v: real) returns (da: Tally, db: Tally)
      requires |pl| > 0
      ensures da == Tally(|pl| * EndHits(lib, endsA, pl[0], v), |pl|)
      ensures db == Tally(|pl| * EndHits(lib, endsB, pl[0], v), |pl|)
    {
      da, db := Tally(0, 0), Tally(0, 0);
      for i := 0 to |pl|
        invariant da == Tally(i * EndHits(lib, endsA, pl[0], v), i)
        invariant db == Tally(i * EndHits(lib, endsB, pl[0], v), i)
      {
        var ha := CountEnds(endsA, pl[0], v);
        var hb := CountEnds(endsB, pl[0], v);
        MulStep(i, ha);
        MulStep(i, hb);
        da := Tally(da.boundary + ha, da.total + 1);
        db := Tally(db.boundary + hb, db.total + 1);
      }
    }
  }

  // ------------------------------------------------------------ facts about the counters

  /**
   * What `outLines` keeps: no entity twice in the insertion order, the
   * keys are exactly the counted entities, each a line, circle or arc of
   * `ents`, and no entity has more endpoint touches than twice its
   * intersections.
   */
  ghost predicate ValidTallies(ents: seq<Entity>, st: Tallies)
  {
    (forall i, j :: 0 <= i < j < |st.keys| ==> st.keys[i] != st.keys[j])
    && (forall k :: k in st.counts <==> k in st.keys)
    && (forall i :: 0 <= i < |st.keys| ==> st.keys[i] < |ents| && Kinded(ents[st.keys[i]]))
    && (forall k :: k in st.counts ==> st.counts[k].boundary <= 2 * st.counts[k].total)
  }

  /** A pair the loops visit: two different lines, circles or arcs of `ents`. */
  predicate GoodPair(ents: seq<Entity>, p: (nat, nat))
  {
    p.0 < |ents| && p.1 < |ents| && p.0 != p.1 && Kinded(ents[p.0]) && Kinded(ents[p.1])
  }

  lemma WithEntryValid(ents: seq<Entity>, st: Tallies, k: nat)
    requires ValidTallies(ents, st) && k < |ents| && Kinded(ents[k])
    ensures ValidTallies(ents, WithEntry(st, k))
  {
    if k !in st.counts {
      var r := WithEntry(st, k);
      assert r.keys == st.keys + [k];
      assert k !in st.keys;
      forall i, j | 0 <= i < j < |r.keys|
        ensures r.keys[i] != r.keys[j]
      {
        if j == |st.keys| {
          assert r.keys[i] == st.keys[i];
        }
      }
    }
  }

  lemma BumpedValid(ents: seq<Entity>, st: Tallies, k: nat, d: Tally)
    requires ValidTallies(ents, st) && k in st.counts && d.boundary <= 2 * d.total
    ensures ValidTallies(ents, Bumped(st, k, d))
  {
  }

  /** `countInter` keeps the counters valid. */
  lemma CountStepValid(lib: Lib, ents: seq<Entity>, st: Tallies, a: nat, b: nat, pl: seq<Point>)
    requires ValidTallies(ents, st) && GoodPair(ents, (a, b))
    ensures ValidTallies(ents, CountStep(lib, ents, st, a, b, pl))
  {
    WithEntryValid(ents, st, a);
    WithEntryValid(ents, WithEntry(st, a), b);
    if |pl| != 0 {
      var s := WithEntry(WithEntry(st, a), b);
      var (da, db) := Delta(lib, ents[a], ents[b], pl);
      DeltaBound(lib, ents[a], ents[b], pl);
      BumpedValid(ents, s, a, da);
      BumpedValid(ents, Bumped(s, a, da), b, db);
    }
  }

  /** Every counted entity is in the insertion order and the other way round. */
  ghost predicate Registered(st: Tallies)
  {
    forall k :: k in st.counts <==> k in st.keys
  }

  lemma WithEntryKeys(st: Tallies, k: nat)
    requires Registered(st)
    ensures Registered(WithEntry(st, k))
    ensures forall j :: j in WithEntry(st, k).keys <==> j in st.keys || j == k
  {
  }

  /** The entities `countInter` has counted: the earlier ones, and A and B. */
  lemma CountStepKeys(lib: Lib, ents: seq<Entity>, st: Tallies, a: nat, b: nat, pl: seq<Point>)
    requires a < |ents| && b < |ents| && Registered(st)
    ensures Registered(CountStep(lib, ents, st, a, b, pl))
    ensures forall k :: k in CountStep(lib, ents, st, a, b, pl).keys <==> k in st.keys || k == a || k == b
  {
    WithEntryKeys(st, a);
    WithEntryKeys(WithEntry(st, a), b);
  }

  /** Counters only grow: earlier keys keep their place and no counter decreases. */
  ghost predicate Grows(st: Tallies, r: Tallies)
  {
    st.keys <= r.keys && st.points <= r.points
    && forall k :: k in st.counts ==>
         k in r.counts && st.counts[k].boundary <= r.counts[k].boundary && st.counts[k].total <= r.counts[k].total
  }

  lemma GrowsTrans(st: Tallies, s: Tallies, r: Tallies)
    requires Grows(st, s) && Grows(s, r)
    ensures Grows(st, r)
  {
  }

  lemma WithEntryGrows(st: Tallies, k: nat)
    ensures Grows(st, WithEntry(st, k))
  {
  }

  lemma BumpedGrows(st: Tallies, k: nat, d: Tally)
    requires k in st.counts
    ensures Grows(st, Bumped(st, k, d))
  {
  }

  /** `countInter` never lowers a counter nor reorders the keys. */
  lemma CountStepGrows(lib: Lib, ents: seq<Entity>, st: Tallies, a: nat, b: nat, pl: seq<Point>)
    requires a < |ents| && b < |ents|
    ensures Grows(st, CountStep(lib, ents, st, a, b, pl))
  {
    var s1 := WithEntry(st, a);
    var s2 := WithEntry(s1, b);
    WithEntryGrows(st, a);
    WithEntryGrows(s1, b);
    GrowsTrans(st, s1, s2);
    if |pl| != 0 {
      var (da, db) := Delta(lib, ents[a], ents[b], pl);
      BumpedGrows(s2, a, da);
      BumpedGrows(Bumped(s2, a, da), b, db);
      GrowsTrans(s2, Bumped(s2, a, da), Bumped(Bumped(s2, a, da), b, db));
      GrowsTrans(st, s2, Bumped(Bumped(s2, a, da), b, db));
    }
  }

  /** A pair that does not meet only registers its two entities, with zero counters if they are new. */
  lemma CountStepNoPoints(lib: Lib, ents: seq<Entity>, st: Tallies, a: nat, b: nat)
    requires a < |ents| && b < |ents|
    ensures var r := CountStep(lib, ents, st, a, b, []);
      r.counts.Keys == st.counts.Keys + {a, b}
      && r.counts[a] == CountOf(st, a) && r.counts[b] == CountOf(st, b)
      && forall k :: k in st.counts ==> r.counts[k] == st.counts[k]
  {
  }

  /** Some pair of `pairs` involves entity k. */
  ghost predicate Touched(pairs: seq<(nat, nat)>, k: nat)
  {
    exists p :: p in pairs && (p.0 == k || p.1 == k)
  }

  /** Every pair of `pairs` is a pair the loops visit. */
  predicate AllGood(ents: seq<Entity>, pairs: seq<(nat, nat)>)
  {
    forall i :: 0 <= i < |pairs| ==> GoodPair(ents, pairs[i])
  }

  /** Passes over good pairs keep the counters valid. */
  lemma {:induction false} VisitsValid(lib: Lib, enumerate: set<Point> -> seq<Point>, meet: (Entity, Entity) -> set<Point>, ents: seq<Entity>, st: Tallies, pairs: seq<(nat, nat)>)
    requires ValidTallies(ents, st) && AllGood(ents, pairs)
    ensures ValidTallies(ents, Visits(lib, enumerate, meet, ents, st, pairs))
    decreases |pairs|
  {
    if |pairs| != 0 {
      var init, p := pairs[..|pairs| - 1], pairs[|pairs| - 1];
      assert pairs == init + [p];
      assert AllGood(ents, init) by {
        forall i | 0 <= i < |init| ensures GoodPair(ents, init[i]) {
          assert init[i] == pairs[i];
        }
      }
      VisitsValid(lib, enumerate, meet, ents, st, init);
      VisitsSnoc(lib, enumerate, meet, ents, st, init, p);
      CountStepValid(lib, ents, Visits(lib, enumerate, meet, ents, st, init), p.0, p.1,
        enumerate(meet(ents[p.0], ents[p.1])));
    }
  }

  /** Passes only make the counters and the point set grow. */
  lemma {:induction false} VisitsGrow(lib: Lib, enumerate: set<Point> -> seq<Point>, meet: (Entity, Entity) -> set<Point>, ents: seq<Entity>, st: Tallies, pairs: seq<(nat, nat)>)
    ensures Grows(st, Visits(lib, enumerate, meet, ents, st, pairs))
    decreases |pairs|
  {
    if |pairs| != 0 {
      var init, p := pairs[..|pairs| - 1], pairs[|pairs| - 1];
      assert pairs == init + [p];
      VisitsGrow(lib, enumerate, meet, ents, st, init);
      var prev := Visits(lib, enumerate, meet, ents, st, init);
      if p.0 < |ents| && p.1 < |ents| {
        VisitsSnoc(lib, enumerate, meet, ents, st, init, p);
        var pts := meet(ents[p.0], ents[p.1]);
        var s := CountStep(lib, ents, prev, p.0, p.1, enumerate(pts));
        CountStepGrows(lib, ents, prev, p.0, p.1, enumerate(pts));
        assert Grows(s, s.(points := s.points + pts));
        GrowsTrans(prev, s, s.(points := s.points + pts));
        GrowsTrans(st, prev, s.(points := s.points + pts));
      } else {
        assert Visits(lib, enumerate, meet, ents, st, pairs) == prev;
      }
    }
  }

  /** After passes over pairs of `ents`, the counted entities are the earlier ones and those some pair involves. */
  lemma {:induction false} VisitsKeys(lib: Lib, enumerate: set<Point> -> seq<Point>, meet: (Entity, Entity) -> set<Point>, ents: seq<Entity>, st: Tallies, pairs: seq<(nat, nat)>, k: nat)
    requires Registered(st) && AllGood(ents, pairs)
    ensures Registered(Visits(lib, enumerate, meet, ents, st, pairs))
    ensures k in Visits(lib, enumerate, meet, ents, st, pairs).keys <==> k in st.keys || Touched(pairs, k)
    decreases |pairs|
  {
    if |pairs| != 0 {
      var init, p := pairs[..|pairs| - 1], pairs[|pairs| - 1];
      assert pairs == init + [p];
      assert AllGood(ents, init) by {
        forall i | 0 <= i < |init| ensures GoodPair(ents, init[i]) {
          assert init[i] == pairs[i];
        }
      }
      assert GoodPair(ents, pairs[|pairs| - 1]);
      VisitsKeys(lib, enumerate, meet, ents, st, init, k);
      VisitsSnoc(lib, enumerate, meet, ents, st, init, p);
      CountStepKeys(lib, ents, Visits(lib, enumerate, meet, ents, st, init), p.0, p.1,
        enumerate(meet(ents[p.0], ents[p.1])));
      TouchedSnoc(init, p, k);
    }
  }

  lemma TouchedSnoc(init: seq<(nat, nat)>, p: (nat, nat), k: nat)
    ensures Touched(init + [p], k) <==> Touched(init, k) || p.0 == k || p.1 == k
  {
    if Touched(init + [p], k) {
      var q :| q in init + [p] && (q.0 == k || q.1 == k);
      assert q in init || q == p;
    }
    if p.0 == k || p.1 == k {
      assert p in init + [p];
    }
    if Touched(init, k) {
      var q :| q in init && (q.0 == k || q.1 == k);
      assert q in init + [p];
    }
  }

  // ------------------------------------------------------------ the pairs `__init__` visits

  /** A pair of one of the triangle loops is two different entities of its type. */
  lemma TriGood(ents: seq<Entity>, k: Kind, p: (nat, nat))
    requires p in TriPairs(TypeList(ents, k))
    ensures GoodPair(ents, p) && IsKind(ents[p.0], k) && IsKind(ents[p.1], k)
  {
    var i, j := TriPairsSound(TypeList(ents, k), p);
  }

  /** A pair of one of the product loops is an entity of the first type with one of the second. */
  lemma ProdGood(ents: seq<Entity>, kx: Kind, ky: Kind, p: (nat, nat))
    requires kx != ky && p in Prod(TypeList(ents, kx), TypeList(ents, ky))
    ensures GoodPair(ents, p) && IsKind(ents[p.0], kx) && IsKind(ents[p.1], ky)
  {
    var i, j := ProdSound(TypeList(ents, kx), TypeList(ents, ky), p);
  }

  /** Every pair `__init__` visits is two different lines, circles or arcs of the continuous lines. */
  lemma PairGood(ents: seq<Entity>, p: (nat, nat))
    requires p in AllPairs(ents)
    ensures GoodPair(ents, p)
  {
    var lines, circles, arcs := TypeList(ents, LineK), TypeList(ents, CircleK), TypeList(ents, ArcK);
    InSix(TriPairs(lines), Prod(lines, circles), Prod(lines, arcs), TriPairs(circles), Prod(circles, arcs), TriPairs(arcs), p);
    if p in TriPairs(lines) {
      TriGood(ents, LineK, p);
    } else if p in Prod(lines, circles) {
      ProdGood(ents, LineK, CircleK, p);
    } else if p in Prod(lines, arcs) {
      ProdGood(ents, LineK, ArcK, p);
    } else if p in TriPairs(circles) {
      TriGood(ents, CircleK, p);
    } else if p in Prod(circles, arcs) {
      ProdGood(ents, CircleK, ArcK, p);
    } else {
      TriGood(ents, ArcK, p);
    }
  }

  lemma AllPairsGood(ents: seq<Entity>)
    ensures AllGood(ents, AllPairs(ents))
  {
    forall i | 0 <= i < |AllPairs(ents)|
      ensures GoodPair(ents, AllPairs(ents)[i])
    {
      PairGood(ents, AllPairs(ents)[i]);
    }
  }

  /** Two different entities of one type meet in its triangle loop, in one order or the other. */
  lemma TriFor(ents: seq<Entity>, k: Kind, a: nat, b: nat) returns (p: (nat, nat))
    requires a < |ents| && b < |ents| && a != b && IsKind(ents[a], k) && IsKind(ents[b], k)
    ensures p in TriPairs(TypeList(ents, k)) && (p == (a, b) || p == (b, a))
  {
    var xs := TypeList(ents, k);
    assert a in xs && b in xs;
    var i :| 0 <= i < |xs| && xs[i] == a;
    var j :| 0 <= j < |xs| && xs[j] == b;
    if i < j {
      TriPairsComplete(xs, i, j);
      p := (a, b);
    } else {
      TriPairsComplete(xs, j, i);
      p := (b, a);
    }
  }

  /** An entity of the first type and one of the second meet in their product loop. */
  lemma ProdFor(ents: seq<Entity>, kx: Kind, ky: Kind, a: nat, b: nat)
    requires a < |ents| && b < |ents| && IsKind(ents[a], kx) && IsKind(ents[b], ky)
    ensures (a, b) in Prod(TypeList(ents, kx), TypeList(ents, ky))
  {
    var xs, ys := TypeList(ents, kx), TypeList(ents, ky);
    assert a in xs && b in ys;
    var i :| 0 <= i < |xs| && xs[i] == a;
    var j :| 0 <= j < |ys| && ys[j] == b;
    ProdComplete(xs, ys, i, j);
  }

  /** Any two different lines, circles or arcs of the continuous lines are visited together. */
  lemma PairFor(ents: seq<Entity>, a: nat, b: nat) returns (p: (nat, nat))
    requires GoodPair(ents, (a, b))
    ensures p in AllPairs(ents) && (p == (a, b) || p == (b, a))
  {
    var ea, eb := ents[a], ents[b];
    if ea.LineE? && eb.LineE? {
      p := TriFor(ents, LineK, a, b);
    } else if ea.CircleE? && eb.CircleE? {
      p := TriFor(ents, CircleK, a, b);
    } else if ea.ArcE? && eb.ArcE? {
      p := TriFor(ents, ArcK, a, b);
    } else if ea.LineE? && eb.CircleE? {
      p := (a, b);
      ProdFor(ents, LineK, CircleK, a, b);
    } else if ea.CircleE? && eb.LineE? {
      p := (b, a);
      ProdFor(ents, LineK, CircleK, b, a);
    } else if ea.LineE? && eb.ArcE? {
      p := (a, b);
      ProdFor(ents, LineK, ArcK, a, b);
    } else if ea.ArcE? && eb.LineE? {
      p := (b, a);
      ProdFor(ents, LineK, ArcK, b, a);
    } else if ea.CircleE? && eb.ArcE? {
      p := (a, b);
      ProdFor(ents, CircleK, ArcK, a, b);
    } else {
      p := (b, a);
      ProdFor(ents, CircleK, ArcK, b, a);
    }
    var lines, circles, arcs := TypeList(ents, LineK), TypeList(ents, CircleK), TypeList(ents, ArcK);
    InSix(TriPairs(lines), Prod(lines, circles), Prod(lines, arcs), TriPairs(circles), Prod(circles, arcs), TriPairs(arcs), p);
  }

  /** Another line, circle or arc than entity k is among the continuous lines. */
  ghost predicate HasPartner(ents: seq<Entity>, k: nat)
  {
    exists m :: 0 <= m < |ents| && m != k && Kinded(ents[m])
  }

  /** The counters `Intersection` leaves are valid. */
  lemma BuiltValid(lib: Lib, enumerate: set<Point> -> seq<Point>, ents: seq<Entity>)
    ensures ValidTallies(ents, Built(lib, enumerate, ents))
  {
    AllPairsGood(ents);
    VisitsValid(lib, enumerate, Meet(lib), ents, NoTallies, AllPairs(ents));
  }

  /**
   * An entity gets counters exactly when it is a line, circle or arc and
   * the continuous lines hold another one: a lone entity is never counted.
   */
  lemma BuiltKeys(lib: Lib, enumerate: set<Point> -> seq<Point>, ents: seq<Entity>, k: nat)
    ensures k in Built(lib, enumerate, ents).keys <==> k < |ents| && Kinded(ents[k]) && HasPartner(ents, k)
  {
    AllPairsGood(ents);
    VisitsKeys(lib, enumerate, Meet(lib), ents, NoTallies, AllPairs(ents), k);
    if Touched(AllPairs(ents), k) {
      var p :| p in AllPairs(ents) && (p.0 == k || p.1 == k);
      PairGood(ents, p);
      var m := if p.0 == k then p.1 else p.0;
      assert 0 <= m < |ents| && m != k && Kinded(ents[m]);
    }
    if k < |ents| && Kinded(ents[k]) && HasPartner(ents, k) {
      var m :| 0 <= m < |ents| && m != k && Kinded(ents[m]);
      var p := PairFor(ents, k, m);
      assert p in AllPairs(ents) && (p.0 == k || p.1 == k);
    }
  }

  // ------------------------------------------------------------ ExtractContinuouslines

  const ContinuousType: string := "Continuous"

  /** The names of the layers whose linetype is "Continuous", in layer-table order. */
  function ContinuousNames(layers: seq<LayerDef>): (r: seq<string>)
    ensures |r| <= |layers|
    ensures forall n :: n in r <==> exists l :: l in layers && l.linetype == ContinuousType && l.name == n
  {
    if |layers| == 0 then []
    else
      var init := ContinuousNames(layers[..|layers| - 1]);
      var l := layers[|layers| - 1];
      assert layers == layers[..|layers| - 1] + [l];
      init + (if l.linetype == ContinuousType then [l.name] else [])
  }

  /**
   * The keys of `doc.groupby('layer')`: every layer name the entities use,
   * once, in the order of first use.
   */
  function GroupKeys(es: seq<Entity>): (r: seq<string>)
    ensures forall n :: n in r <==> exists e :: e in es && e.layer == n
    ensures forall i, j :: 0 <= i < j < |r| ==> r[i] != r[j]
  {
    if |es| == 0 then []
    else
      var init := GroupKeys(es[..|es| - 1]);
      var e := es[|es| - 1];
      assert es == es[..|es| - 1] + [e];
      if e.layer in init then init else init + [e.layer]
  }

  /** How many lines, circles and arcs `es` holds. */
  function KindedCount(es: seq<Entity>): (n: nat)
    ensures n <= |es|
  {
    if |es| == 0 then 0
    else KindedCount(es[..|es| - 1]) + (if Kinded(es[|es| - 1]) then 1 else 0)
  }

  /** The count `extract` compares is the number of entities the intersection pass sorts into its three lists. */
  lemma {:induction false} KindedCountLists(es: seq<Entity>)
    ensures KindedCount(es) == |TypeList(es, LineK)| + |TypeList(es, CircleK)| + |TypeList(es, ArcK)|
    decreases |es|
  {
    if |es| != 0 {
      KindedCountLists(es[..|es| - 1]);
    }
  }

  /** The lines, circles and arcs on layer `name`. */
  function LayerCount(es: seq<Entity>, name: string): nat
  {
    KindedCount(OnLayer(es, name))
  }

  /**
   * The layer choice of `extract` after the first n group keys: the name and
   * count of the continuous layer with the most lines, circles and arcs, the
   * later one on a tie, starting from `("", 0)`.
   */
  function Choice(keys: seq<string>, cont: seq<string>, es: seq<Entity>, n: nat): (string, nat)
    requires n <= |keys|
  {
    if n == 0 then ("", 0)
    else
      var best := Choice(keys, cont, es, n - 1);
      var name := keys[n - 1];
      if name in cont && LayerCount(es, name) >= best.1 then (name, LayerCount(es, name)) else best
  }

  /**
   * keys[j] is a continuous layer with the largest count among the first n
   * keys, and every continuous layer after it has a smaller count.
   */
  ghost predicate LastBest(keys: seq<string>, cont: seq<string>, es: seq<Entity>, n: nat, j: nat)
    requires n <= |keys|
  {
    j < n && keys[j] in cont
    && forall i :: 0 <= i < n && keys[i] in cont ==>
         LayerCount(es, keys[i]) <= LayerCount(es, keys[j]) && (j < i ==> LayerCount(es, keys[i]) < LayerCount(es, keys[j]))
  }

  /** Without a continuous layer the choice stays at `("", 0)`. */
  lemma {:induction false} ChoiceNone(keys: seq<string>, cont: seq<string>, es: seq<Entity>, n: nat)
    requires n <= |keys| && forall i :: 0 <= i < n ==> keys[i] !in cont
    ensures Choice(keys, cont, es, n) == ("", 0)
  {
    if n != 0 {
      ChoiceNone(keys, cont, es, n - 1);
    }
  }

  /** With a continuous layer, the choice is the last continuous layer of the largest count. */
  lemma {:induction false} ChoiceBest(keys: seq<string>, cont: seq<string>, es: seq<Entity>, n: nat) returns (j: nat)
    requires n <= |keys| && exists i :: 0 <= i < n && keys[i] in cont
    ensures LastBest(keys, cont, es, n, j)
    ensures Choice(keys, cont, es, n) == (keys[j], LayerCount(es, keys[j]))
  {
    var best := Choice(keys, cont, es, n - 1);
    var name := keys[n - 1];
    if exists i :: 0 <= i < n - 1 && keys[i] in cont {
      var j0 := ChoiceBest(keys, cont, es, n - 1);
      if name in cont && LayerCount(es, name) >= best.1 {
        j := n - 1;
      } else {
        j := j0;
      }
    } else {
      ChoiceNone(keys, cont, es, n - 1);
      j := n - 1;
    }
  }

  /** `ExtractContinuouslines.extract`: the entities of the chosen layer, or None where `group.get` finds no such layer. */
  function Extract(d: Drawing): Option<seq<Entity>>
  {
    var keys := GroupKeys(d.entities);
    var chosen := Choice(keys, ContinuousNames(d.layers), d.entities, |keys|).0;
    if chosen in keys then Some(OnLayer(d.entities, chosen)) else None
  }

  /** Some entity is on a layer the layer table marks continuous. */
  ghost predicate UsesContinuous(d: Drawing)
  {
    exists e :: e in d.entities && e.layer in ContinuousNames(d.layers)
  }

  /**
   * `extract` fails exactly when no entity is on a continuous layer and no
   * entity is on a layer named "" (the name it starts from).
   */
  lemma ExtractNone(d: Drawing)
    ensures Extract(d).None? <==> !UsesContinuous(d) && forall e :: e in d.entities ==> e.layer != ""
  {
    var keys := GroupKeys(d.entities);
    var cont := ContinuousNames(d.layers);
    if UsesContinuous(d) {
      var e :| e in d.entities && e.layer in cont;
      assert e.layer in keys;
      var i :| 0 <= i < |keys| && keys[i] == e.layer;
      var j := ChoiceBest(keys, cont, d.entities, |keys|);
    } else {
      forall i | 0 <= i < |keys|
        ensures keys[i] !in cont
      {
        assert keys[i] in keys;
      }
      ChoiceNone(keys, cont, d.entities, |keys|);
    }
  }

  /**
   * When some entity is on a continuous layer, `extract` returns the
   * entities of a continuous layer whose count of lines, circles and arcs
   * no continuous layer exceeds, and that no later continuous layer (in
   * order of first use) ties.
   */
  lemma ExtractBest(d: Drawing) returns (j: nat)
    requires UsesContinuous(d)
    ensures var keys := GroupKeys(d.entities);
      j < |keys| && LastBest(keys, ContinuousNames(d.layers), d.entities, |keys|, j)
      && Extract(d) == Some(OnLayer(d.entities, keys[j]))
  {
    var keys := GroupKeys(d.entities);
    var cont := ContinuousNames(d.layers);
    var e :| e in d.entities && e.layer in cont;
    assert e.layer in keys;
    var i :| 0 <= i < |keys| && keys[i] == e.layer;
    j := ChoiceBest(keys, cont, d.entities, |keys|);
    assert keys[j] in keys;
  }

  /** The loop over the layer table collecting the continuous layer names. */
  method ContinuousLayers(layers: seq<LayerDef>) returns (names: seq<string>)
    ensures names == ContinuousNames(layers)
  {
    names := [];
    for i := 0 to |layers|
      invariant names == ContinuousNames(layers[..i])
    {
      PrefixStep(layers, i);
      if layers[i].linetype == ContinuousType {
        names := names + [layers[i].name];
      }
    }
    assert layers[..|layers|] == layers;
  }

  /** The loop counting the lines, circles and arcs of one group. */
  method CountOutline(es: seq<Entity>) returns (count: nat)
    ensures count == KindedCount(es)
  {
    count := 0;
    for i := 0 to |es|
      invariant count == KindedCount(es[..i])
    {
      PrefixStep(es, i);
      var e := es[i];
      if e.LineE? || e.CircleE? || e.ArcE? {
        count := count + 1;
      }
    }
    assert es[..|es|] == es;
  }

  /** The loop over the groups choosing the outline layer. */
  method ChooseOutline(keys: seq<string>, cont: seq<string>, es: seq<Entity>) returns (outlineLayer: string, lenOutLine: nat)
    ensures (outlineLayer, lenOutLine) == Choice(keys, cont, es, |keys|)
  {
    outlineLayer, lenOutLine := "", 0;
    for i := 0 to |keys|
      invariant (outlineLayer, lenOutLine) == Choice(keys, cont, es, i)
    {
      var layerName := keys[i];
      if layerName in cont {
        var count := CountOutline(OnLayer(es, layerName));
        if count >= lenOutLine {
          outlineLayer, lenOutLine := layerName, count;
        }
      }
    }
  }

  /** The loop copying the chosen group into `continuousLines`. */
  method CopyGroup(group: seq<Entity>) returns (continuousLines: seq<Entity>)
    ensures continuousLines == group
  {
    continuousLines := [];
    for i := 0 to |group|
      invariant continuousLines == group[..i]
    {
      continuousLines := continuousLines + [group[i]];
    }
    assert group[..|group|] == group;
  }

  /** `extract(doc)`. The grouping by layer is `GroupKeys` with `OnLayer`. */
  method ExtractContinuous(d: Drawing) returns (r: Option<seq<Entity>>)
    ensures r == Extract(d)
  {
    var cont := ContinuousLayers(d.layers);
    var keys := GroupKeys(d.entities);
    var outlineLayer, lenOutLine := ChooseOutline(keys, cont, d.entities);
    if outlineLayer !in keys {
      return None;
    }
    var continuousLines := CopyGroup(OnLayer(d.entities, outlineLayer));
    r := Some(continuousLines);
  }

  // ------------------------------------------------------------ inspect_doc

  const BrokenCaption: string := "ループが途切れています"
  const BrokenLineDesc: string := "ループが切れた直線が輪郭線内に存在します"
  const BrokenArcDesc: string := "ループが切れた円弧が輪郭線内に存在します"
  const StrayCaption: string := "余計な線です"
  const StrayLineDesc: string := "余計な線が輪郭線内に存在します"
  const StrayArcDesc: string := "余計な円弧が輪郭線内に存在します"

  /** Where a finding points, and its caption and description. */
  datatype Mark = Mark(pos: Point, caption: string, desc: string)

  /** `isInFrame`: a line's midpoint, or a circle's or arc's centre, lies strictly inside the frame corners. */
  predicate IsInFrame(e: Entity, fp: seq<Point>)
    requires |fp| >= 2 && Kinded(e)
  {
    var pos := if e.LineE? then Midpoint(e.start, e.end) else e.center;
    fp[0].x < pos.x < fp[1].x && fp[0].y < pos.y < fp[1].y
  }

  /**
   * The branches of `inspect_doc` on one counted entity: a line (marked at
   * its midpoint) or an arc (marked at its start point) gives a finding
   * exactly when fewer than two intersections touched its endpoints. It is
   * a broken loop when one did, or when none did but it meets at least two
   * others; otherwise it is a stray piece. A circle never gives one (its
   * branch tests for the type 'CORCLE').
   */
  function Classify(lib: Lib, e: Entity, t: Tally): (r: Option<Mark>)
    ensures r.Some? <==> (e.LineE? || e.ArcE?) && t.boundary < 2
    ensures r.Some? ==> r.value.pos == (if e.LineE? then Midpoint(e.start, e.end) else ArcStartPoint(lib, e))
    ensures r.Some? ==> (r.value.caption == BrokenCaption <==> t.boundary == 1 || t.total >= 2)
    ensures r.Some? ==> r.value.caption == StrayCaption || r.value.caption == BrokenCaption
    ensures r.Some? && e.LineE? ==> r.value.desc == (if r.value.caption == BrokenCaption then BrokenLineDesc else StrayLineDesc)
    ensures r.Some? && e.ArcE? ==> r.value.desc == (if r.value.caption == BrokenCaption then BrokenArcDesc else StrayArcDesc)
  {
    if e.LineE? then
      var pos := Midpoint(e.start, e.end);
      if t.boundary == 1 || (t.boundary == 0 && t.total >= 2) then Some(Mark(pos, BrokenCaption, BrokenLineDesc))
      else if t.boundary == 0 then Some(Mark(pos, StrayCaption, StrayLineDesc))
      else None
    else if e.ArcE? then
      var pos := ArcStartPoint(lib, e);
      if t.boundary == 1 || (t.boundary == 0 && t.total >= 2) then Some(Mark(pos, BrokenCaption, BrokenArcDesc))
      else if t.boundary == 0 then Some(Mark(pos, StrayCaption, StrayArcDesc))
      else None
    else None
  }

  /** Key k is a line, circle or arc of `ents` with counters. */
  predicate KeyOk(ents: seq<Entity>, st: Tallies, k: nat)
  {
    k < |ents| && Kinded(ents[k]) && k in st.counts
  }

  /** Every key of `st` is one. */
  ghost predicate KeysOk(ents: seq<Entity>, st: Tallies)
  {
    forall k :: k in st.keys ==> KeyOk(ents, st, k)
  }

  lemma ValidKeysOk(ents: seq<Entity>, st: Tallies)
    requires ValidTallies(ents, st)
    ensures KeysOk(ents, st)
  {
    forall k | k in st.keys
      ensures KeyOk(ents, st, k)
    {
      var i :| 0 <= i < |st.keys| && st.keys[i] == k;
    }
  }

  /** The finding for key k, if any: only counted entities inside the frame are classified. */
  function MarkOf(lib: Lib, ents: seq<Entity>, st: Tallies, fp: seq<Point>, k: nat): Option<Mark>
    requires |fp| >= 2
  {
    if KeyOk(ents, st, k) && IsInFrame(ents[k], fp) then Classify(lib, ents[k], st.counts[k]) else None
  }

  /** The keys, in order, whose entity gives a finding. */
  function Flagged(lib: Lib, ents: seq<Entity>, st: Tallies, fp: seq<Point>, keys: seq<nat>): (r: seq<nat>)
    requires |fp| >= 2
    ensures |r| <= |keys|
    ensures forall k :: k in r <==> k in keys && MarkOf(lib, ents, st, fp, k).Some?
  {
    if |keys| == 0 then []
    else
      var init, k := keys[..|keys| - 1], keys[|keys| - 1];
      assert keys == init + [k];
      Flagged(lib, ents, st, fp, init) + (if MarkOf(lib, ents, st, fp, k).Some? then [k] else [])
  }

  /** The `CheckResult` of the n-th finding. */
  function Finding(n: nat, m: Mark): CheckResult
  {
    CheckResult(n, InspectName, true, Some(m.pos), m.caption, m.desc, ResultColor)
  }

  /**
   * The `results` of the loop over `outLines.items()` in key order: the
   * findings of the flagged keys, numbered from 1.
   */
  function Findings(lib: Lib, ents: seq<Entity>, st: Tallies, fp: seq<Point>, keys: seq<nat>): (r: seq<CheckResult>)
    requires |fp| >= 2
    ensures var fl := Flagged(lib, ents, st, fp, keys);
      |r| == |fl| && forall i :: 0 <= i < |r| ==> r[i] == Finding(i + 1, MarkOf(lib, ents, st, fp, fl[i]).value)
  {
    if |keys| == 0 then []
    else
      var init, k := keys[..|keys| - 1], keys[|keys| - 1];
      assert keys == init + [k];
      var rs := Findings(lib, ents, st, fp, init);
      var m := MarkOf(lib, ents, st, fp, k);
      if m.Some? then rs + [Finding(|rs| + 1, m.value)] else rs
  }

  /**
   * `inspect_doc` with the corrected per-type lists: None where it raises
   * (no outline layer for `group.get`, or no frame corners to index while
   * some entity is counted), otherwise the numbered findings.  The source
   * also raises when the outline lacks a type; see `InspectionAsWritten`.
   */
  function Inspection(lib: Lib, enumerate: set<Point> -> seq<Point>, d: Drawing, fp: seq<Point>): Option<seq<CheckResult>>
  {
    match Extract(d)
    case None => None
    case Some(ents) =>
      var st := Built(lib, enumerate, ents);
      if |st.keys| == 0 then Some([])
      else if |fp| < 2 then None
      else Some(Findings(lib, ents, st, fp, st.keys))
  }

  /**
   * `inspect_doc` as written: the `Intersection` pass raises `TypeError`
   * unless the outline has lines, circles and arcs; otherwise as `Inspection`.
   */
  function InspectionAsWritten(lib: Lib, enumerate: set<Point> -> seq<Point>, d: Drawing, fp: seq<Point>): Option<seq<CheckResult>>
  {
    match Extract(d)
    case None => None
    case Some(ents) => if IntersectionRaisesAsWritten(ents) then None else Inspection(lib, enumerate, d, fp)
  }

  /**
   * As written, the inspection fails exactly when extraction fails, when the
   * outline lacks lines, circles or arcs, or when there are counters to test
   * and the frame has fewer than two corner points; on an outline with all
   * three types it agrees with `Inspection`.
   */
  lemma InspectionAsWrittenNone(lib: Lib, enumerate: set<Point> -> seq<Point>, d: Drawing, fp: seq<Point>)
    ensures InspectionAsWritten(lib, enumerate, d, fp).None? <==>
      Extract(d).None? || (exists k: Kind :: Missing(Extract(d).value, k))
      || (|fp| < 2 && TwoKinded(Extract(d).value))
    ensures Extract(d).Some? && (forall k: Kind :: !Missing(Extract(d).value, k)) ==>
      InspectionAsWritten(lib, enumerate, d, fp) == Inspection(lib, enumerate, d, fp)
  {
    InspectionNone(lib, enumerate, d, fp);
    if Extract(d).Some? {
      IntersectionRaisesMeaning(Extract(d).value);
    }
  }

  /**
   * Which entities `inspect_doc` reports: exactly the lines and arcs inside
   * the frame that meet some other line, circle or arc and whose endpoints
   * were touched by fewer than two intersections.
   */
  lemma FlaggedExactly(lib: Lib, enumerate: set<Point> -> seq<Point>, ents: seq<Entity>, fp: seq<Point>, k: nat)
    requires |fp| >= 2
    ensures var st := Built(lib, enumerate, ents);
      k in Flagged(lib, ents, st, fp, st.keys) <==>
        k < |ents| && (ents[k].LineE? || ents[k].ArcE?) && HasPartner(ents, k) && IsInFrame(ents[k], fp)
        && k in st.counts && st.counts[k].boundary < 2
  {
    BuiltKeys(lib, enumerate, ents, k);
    BuiltValid(lib, enumerate, ents);
  }

  /** Two different lines, circles or arcs. */
  ghost predicate TwoKinded(ents: seq<Entity>)
  {
    exists i, j :: 0 <= i < j < |ents| && Kinded(ents[i]) && Kinded(ents[j])
  }

  /** `outLines` stays empty exactly when fewer than two entities can meet. */
  lemma BuiltEmpty(lib: Lib, enumerate: set<Point> -> seq<Point>, ents: seq<Entity>)
    ensures |Built(lib, enumerate, ents).keys| == 0 <==> !TwoKinded(ents)
  {
    var st := Built(lib, enumerate, ents);
    if |st.keys| > 0 {
      var k := st.keys[0];
      BuiltKeys(lib, enumerate, ents, k);
      var m :| 0 <= m < |ents| && m != k && Kinded(ents[m]);
      if m < k {
        assert Kinded(ents[m]) && Kinded(ents[k]);
      } else {
        assert Kinded(ents[k]) && Kinded(ents[m]);
      }
    }
    if TwoKinded(ents) {
      var i, j :| 0 <= i < j < |ents| && Kinded(ents[i]) && Kinded(ents[j]);
      BuiltKeys(lib, enumerate, ents, i);
      assert i in st.keys;
    }
  }

  /**
   * `inspect_doc` raises exactly when the outline layer is missing, or when
   * there are no frame corners while at least two of its entities can meet.
   */
  lemma InspectionNone(lib: Lib, enumerate: set<Point> -> seq<Point>, d: Drawing, fp: seq<Point>)
    ensures Inspection(lib, enumerate, d, fp).None? <==>
      Extract(d).None? || (|fp| < 2 && TwoKinded(Extract(d).value))
  {
    if Extract(d).Some? {
      BuiltEmpty(lib, enumerate, Extract(d).value);
    }
  }

  /** The loop of `inspect_doc` over the counted entities. */
  method Report(lib: Lib, ents: seq<Entity>, st: Tallies, fp: seq<Point>) returns (results: seq<CheckResult>)
    requires |fp| >= 2 && KeysOk(ents, st)
    ensures results == Findings(lib, ents, st, fp, st.keys)
  {
    var number := 1;
    results := [];
    for i := 0 to |st.keys|
      invariant results == Findings(lib, ents, st, fp, st.keys[..i]) && number == |results| + 1
    {
      results, number := ReportOne(lib, ents, st, fp, i, results, number);
    }
    assert st.keys[..|st.keys|] == st.keys;
  }

  /** One pass of that loop: the finding of the i-th key, if any, numbered next. */
  method ReportOne(lib: Lib, ents: seq<Entity>, st: Tallies, fp: seq<Point>, i: nat, results: seq<CheckResult>, number: nat)
    returns (results': seq<CheckResult>, number': nat)
    requires |fp| >= 2 && KeysOk(ents, st) && i < |st.keys|
    requires results == Findings(lib, ents, st, fp, st.keys[..i]) && number == |results| + 1
    ensures results' == Findings(lib, ents, st, fp, st.keys[..i + 1]) && number' == |results'| + 1
  {
    PrefixStep(st.keys, i);
    var entity := st.keys[i];
    assert KeyOk(ents, st, entity);
    results', number' := results, number;
    if IsInFrame(ents[entity], fp) {
      var m := Classify(lib, ents[entity], st.counts[entity]);
      if m.Some? {
        results' := results + [CheckResult(number, InspectName, true, Some(m.value.pos), m.value.caption, m.value.desc, ResultColor)];
        number' := number + 1;
      }
    }
  }

  /**
   * `CheckOutlineConnectivity.inspect_doc` on the document and the frame
   * corners of the frame result; None where the source raises.
   */
  method InspectDoc(lib: Lib, enumerate: set<Point> -> seq<Point>, d: Drawing, fp: seq<Point>) returns (results: Option<seq<CheckResult>>)
    ensures results == Inspection(lib, enumerate, d, fp)
  {
    var continuousLines := ExtractContinuous(d);
    if continuousLines.None? {
      return None;
    }
    var ents := continuousLines.value;
    var intersections := new Intersection(lib, enumerate, ents);
    var st := intersections.State();
    if |st.keys| == 0 {
      return Some([]);
    }
    if |fp| < 2 {
      return None;
    }
    BuiltValid(lib, enumerate, ents);
    ValidKeysOk(ents, st);
    var rs := Report(lib, ents, st, fp);
    results := Some(rs);
  }
}
