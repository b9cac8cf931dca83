/**
 * `CheckTitleBlock`: locating the title block in the lower right corner of the
 * outline frame, collecting its rulings, and reporting rulings that connect
 * only under the relaxed tolerance.
 *
 * Each ruling is a LINE's `start`/`end` pair.  The horizontal and the vertical
 * extraction run the same pipeline along two axes (filter, normalise so that
 * `start` comes first, sort, merge runs that continue each other, keep those
 * touching the frame); `Axis` names the axis and `Along`/`Across` its
 * coordinates, so that the pipeline is written once.
 */
module CheckTitleBlock {
  import opened Geometry
  import opened Sorting
  import opened Entities
  import opened CheckResults
  import opened SeqFacts
  import FrameExtractor

  /** Two points closer than this on both axes are the same point. */
  const Eps1: real := 0.001
  /** The relaxed tolerance: rulings this close were meant to touch. */
  const Eps2: real := 0.1

  const InspectName: string := "表題欄の検出"
  const InspectType: string := "表題欄"
  const BlockColor: int := 54
  const ErrorColor: int := 1
  const FoundCaption: string := "検出した表題欄"
  const FoundDesc: string := "表題欄が検出されました"
  const RulingCaption: string := "表題欄の罫線に誤りあり"
  const RulingDesc: string := "罫線が正しく接続されていない"
  const SuspectCaption: string := "表題欄に誤りあり"
  const SuspectDesc: string := "表題欄の枠が正しく描かれていない可能性があります．接続に気をつけてください．"
  const MissingCaption: string := "表題欄なし"
  const MissingDesc: string := "厳密な表題欄が見つかりませんでした．表題欄を確認してください．"
  const AbsentCaption: string := "表題欄がありません"

  /**
   * The exceptions of the title-block search; `OtherError` stands for any
   * other exception (an index out of range on an empty list).
   */
  datatype Error =
    | HorizontalLineNotFound
    | VerticalLineNotFound
    | TopLeftCornerNotFound
    | TitleBlockNotFound
    | OtherError

  datatype Outcome<T> = Ok(value: T) | Fail(error: Error)

  /** The outline frame's sides: left, right, top and bottom coordinates. */
  datatype Frame = Frame(l: real, r: real, t: real, b: real)

  /** The title block's extent. */
  datatype Area = Area(top: real, left: real, bottom: real, right: real)

  /** `Seq.filter`: the elements satisfying `p`, in order. */
  function Filter<T(!new)>(s: seq<T>, p: T -> bool): (r: seq<T>)
    ensures |r| <= |s|
    ensures forall x :: x in r <==> x in s && p(x)
    ensures forall k :: 0 <= k < |r| ==> p(r[k])
    decreases |s|
  {
    if |s| == 0 then []
    else
      assert s == s[..|s| - 1] + [s[|s| - 1]];
      Filter(s[..|s| - 1], p) + (if p(s[|s| - 1]) then [s[|s| - 1]] else [])
  }

  // ---------------------------------------------------------------- points

  /** `__IsSamePoint`. */
  predicate IsSamePoint(p: Point, q: Point, eps: real)
  {
    Abs(p.x - q.x) < eps && Abs(p.y - q.y) < eps
  }

  /** Both coordinates differ by strictly less than `eps`, in either order of the points. */
  lemma IsSamePointMeaning(p: Point, q: Point, eps: real)
    ensures IsSamePoint(p, q, eps) <==> q.x - eps < p.x < q.x + eps && q.y - eps < p.y < q.y + eps
    ensures IsSamePoint(p, q, eps) <==> IsSamePoint(q, p, eps)
  {
  }

  /** `MiddlePoint`: the point halfway between the ends of a line. */
  function MiddlePoint(l: Line): (m: Point)
    ensures Sub(m, l.start) == Sub(l.end, m)
  {
    Midpoint(l.start, l.end)
  }

  /** The midpoint does not depend on the line's direction. */
  lemma MiddlePointReversed(l: Line)
    ensures MiddlePoint(Line(l.end, l.start)) == MiddlePoint(l)
  {
  }

  // ------------------------------------------------------------------ axes

  datatype Axis = Horizontal | Vertical

  /**
   * The coordinate a ruling of this axis keeps: y for a horizontal, minus x
   * for a vertical (so that verticals sorted by ascending x come out with a
   * non-increasing `Across`, as horizontals sorted from the top do).
   */
  function Across(o: Axis, p: Point): real
  {
    if o == Horizontal then p.y else -p.x
  }

  /** The coordinate a normalised ruling grows along: x for a horizontal, minus y for a vertical (top first). */
  function Along(o: Axis, p: Point): real
  {
    if o == Horizontal then p.x else -p.y
  }

  /** The point with the given coordinates along and across the axis. */
  function PointAt(o: Axis, along: real, across: real): (p: Point)
    ensures Along(o, p) == along && Across(o, p) == across
  {
    if o == Horizontal then Point(along, across) else Point(-across, -along)
  }

  /** Filter `c1`: a horizontal (vertical) within `eps`. */
  predicate IsRuling(o: Axis, l: Line, eps: real)
  {
    Abs(Across(o, l.start) - Across(o, l.end)) < eps
  }

  /** Filter `c2`: a horizontal starts strictly between bottom and top; a vertical more than `eps` inside left and right. */
  predicate InFrame(o: Axis, frm: Frame, l: Line, eps: real)
  {
    if o == Horizontal then frm.b < l.start.y < frm.t
    else frm.l + eps < l.start.x < frm.r - eps
  }

  /** Filter `c3`: a horizontal ends at the frame's right side, a vertical at its bottom. */
  predicate TouchesFrame(o: Axis, frm: Frame, l: Line, eps: real)
  {
    if o == Horizontal then Abs(l.end.x - frm.r) < eps else Abs(l.end.y - frm.b) < eps
  }

  /** `make_left_start` / `make_top_start`: swap the ends when `start` comes after `end`. */
  function Normalise(o: Axis, l: Line): (r: Line)
    ensures Along(o, r.start) <= Along(o, r.end)
    ensures (r.start == l.start && r.end == l.end) || (r.start == l.end && r.end == l.start)
  {
    if Along(o, l.start) > Along(o, l.end) then Line(l.end, l.start) else l
  }

  function NormaliseAll(o: Axis, s: seq<Line>): (r: seq<Line>)
    ensures |r| == |s|
    ensures forall k :: 0 <= k < |s| ==> r[k] == Normalise(o, s[k])
  {
    seq(|s|, k requires 0 <= k < |s| => Normalise(o, s[k]))
  }

  /**
   * The sort key: (-y, x) of the start for horizontals, (x, -y) for
   * verticals, which is (-Across, Along) on either axis.
   */
  function RulingKey(o: Axis): Line -> Key
  {
    (l: Line) => Key(-Across(o, l.start), Along(o, l.start))
  }

  function CandidateTest(o: Axis, frm: Frame, eps: real): Line -> bool
  {
    (l: Line) => IsRuling(o, l, eps) && InFrame(o, frm, l, eps)
  }

  function TouchTest(o: Axis, frm: Frame, eps: real): Line -> bool
  {
    (l: Line) => TouchesFrame(o, frm, l, eps)
  }

  /** The rulings of this axis inside the frame, as they are filtered. */
  function Candidates(o: Axis, frm: Frame, lines: seq<Line>, eps: real): seq<Line>
  {
    Filter(lines, CandidateTest(o, frm, eps))
  }

  /** The candidates normalised and sorted, ready to be merged. */
  function Prepared(o: Axis, frm: Frame, lines: seq<Line>, eps: real): seq<Line>
  {
    SortBy(NormaliseAll(o, Candidates(o, frm, lines, eps)), RulingKey(o))
  }

  /** The per-axis expressions spelled out in plain coordinates. */
  lemma AxisCoordinates(l: Line, cur: Line, frm: Frame, eps: real)
    ensures IsRuling(Horizontal, l, eps) <==> Abs(l.start.y - l.end.y) < eps
    ensures IsRuling(Vertical, l, eps) <==> Abs(l.start.x - l.end.x) < eps
    ensures Normalise(Horizontal, l) == (if l.start.x > l.end.x then Line(l.end, l.start) else l)
    ensures Normalise(Vertical, l) == (if l.start.y < l.end.y then Line(l.end, l.start) else l)
    ensures RulingKey(Horizontal)(l) == Key(-l.start.y, l.start.x)
    ensures RulingKey(Vertical)(l) == Key(l.start.x, -l.start.y)
    ensures Joins(Horizontal, cur, l, eps) <==> Abs(l.start.y - cur.start.y) < eps && l.start.x < cur.end.x + eps
    ensures Joins(Vertical, cur, l, eps) <==> Abs(l.start.x - cur.start.x) < eps && l.start.y > cur.end.y - eps
    ensures Join(Horizontal, cur, l) == Line(cur.start, Point(Max(cur.end.x, l.end.x), cur.start.y))
    ensures Join(Vertical, cur, l) == Line(cur.start, Point(cur.start.x, Min(cur.end.y, l.end.y)))
  {
    assert Abs(-l.start.x - -l.end.x) == Abs(l.start.x - l.end.x);
    assert Abs(-l.start.x - -cur.start.x) == Abs(l.start.x - cur.start.x);
  }

  // ---------------------------------------------------------------- merging

  /** The merge test: `l` starts within `eps` across `cur` and before `cur`'s end (within `eps`). */
  predicate Joins(o: Axis, cur: Line, l: Line, eps: real)
  {
    Abs(Across(o, l.start) - Across(o, cur.start)) < eps && Along(o, l.start) < Along(o, cur.end) + eps
  }

  /** The merged ruling: `cur`'s start, extended to the farther of the two ends, kept at `cur`'s start across. */
  function Join(o: Axis, cur: Line, l: Line): Line
  {
    Line(cur.start, PointAt(o, Max(Along(o, cur.end), Along(o, l.end)), Across(o, cur.start)))
  }

  /**
   * The merge loop from the ruling `cur` being built with `rest` still to
   * come: a continuing ruling widens `cur`, any other closes it and starts
   * the next.
   */
  function MergeRun(o: Axis, cur: Line, rest: seq<Line>, eps: real): (r: seq<Line>)
    ensures 1 <= |r| <= |rest| + 1
    ensures r[0].start == cur.start && Along(o, cur.end) <= Along(o, r[0].end)
    decreases |rest|
  {
    if |rest| == 0 then [cur]
    else if Joins(o, cur, rest[0], eps) then MergeRun(o, Join(o, cur, rest[0]), rest[1..], eps)
    else [cur] + MergeRun(o, rest[0], rest[1..], eps)
  }

  function Merged(o: Axis, s: seq<Line>, eps: real): (r: seq<Line>)
    ensures |r| <= |s|
  {
    if |s| == 0 then [] else MergeRun(o, s[0], s[1..], eps)
  }

  /** Every merged ruling has its start first along the axis, when the inputs have. */
  lemma {:induction false} MergeRunNormal(o: Axis, cur: Line, rest: seq<Line>, eps: real, k: nat)
    requires Along(o, cur.start) <= Along(o, cur.end)
    requires forall i :: 0 <= i < |rest| ==> Along(o, rest[i].start) <= Along(o, rest[i].end)
    requires k < |MergeRun(o, cur, rest, eps)|
    ensures Along(o, MergeRun(o, cur, rest, eps)[k].start) <= Along(o, MergeRun(o, cur, rest, eps)[k].end)
    decreases |rest|
  {
    if |rest| > 0 {
      if Joins(o, cur, rest[0], eps) {
        MergeRunNormal(o, Join(o, cur, rest[0]), rest[1..], eps, k);
      } else if k > 0 {
        MergeRunNormal(o, rest[0], rest[1..], eps, k - 1);
      }
    }
  }

  /** Starts non-increasing across the axis: rulings sorted from the top (the left) stay so. */
  ghost predicate AcrossSorted(o: Axis, s: seq<Line>)
  {
    forall i, j :: 0 <= i < j < |s| ==> Across(o, s[j].start) <= Across(o, s[i].start)
  }

  /** The tail of rulings sorted across the axis is sorted, and lies no higher than the head. */
  lemma AcrossSortedTail(o: Axis, s: seq<Line>)
    requires |s| > 0 && AcrossSorted(o, s)
    ensures AcrossSorted(o, s[1..])
    ensures forall k :: 0 <= k < |s[1..]| ==> Across(o, s[1..][k].start) <= Across(o, s[0].start)
  {
    forall i, j | 0 <= i < j < |s[1..]| ensures Across(o, s[1..][j].start) <= Across(o, s[1..][i].start) {
      assert s[1..][j] == s[j + 1] && s[1..][i] == s[i + 1];
    }
  }

  lemma {:induction false} MergeRunSorted(o: Axis, cur: Line, rest: seq<Line>, eps: real)
    requires forall k :: 0 <= k < |rest| ==> Across(o, rest[k].start) <= Across(o, cur.start)
    requires AcrossSorted(o, rest)
    ensures var r := MergeRun(o, cur, rest, eps);
      AcrossSorted(o, r) && forall k :: 0 <= k < |r| ==> Across(o, r[k].start) <= Across(o, cur.start)
    decreases |rest|
  {
    if |rest| > 0 {
      if Joins(o, cur, rest[0], eps) {
        MergeRunSorted(o, Join(o, cur, rest[0]), rest[1..], eps);
      } else {
        MergeRunSorted(o, rest[0], rest[1..], eps);
      }
    }
  }

  /** A merged ruling starts where `cur` or one of `rest` starts: `j` indexes that ruling in `[cur] + rest`. */
  lemma {:induction false} MergeRunStart(o: Axis, cur: Line, rest: seq<Line>, eps: real, k: nat) returns (j: nat)
    requires k < |MergeRun(o, cur, rest, eps)|
    ensures j <= |rest| && ([cur] + rest)[j].start == MergeRun(o, cur, rest, eps)[k].start
    decreases |rest|
  {
    if |rest| == 0 {
      j := 0;
    } else if Joins(o, cur, rest[0], eps) {
      var i := MergeRunStart(o, Join(o, cur, rest[0]), rest[1..], eps, k);
      if i == 0 {
        j := 0;
      } else {
        assert ([Join(o, cur, rest[0])] + rest[1..])[i] == rest[i];
        j := i + 1;
      }
    } else if k == 0 {
      j := 0;
    } else {
      var i := MergeRunStart(o, rest[0], rest[1..], eps, k - 1);
      assert [rest[0]] + rest[1..] == rest;
      j := i + 1;
    }
  }

  /**
   * Ruling `out` represents `l`: it starts within `eps` across `l`'s start
   * and reaches at least as far along.
   */
  predicate Reaches(o: Axis, out: Line, l: Line, eps: real)
  {
    Abs(Across(o, l.start) - Across(o, out.start)) < eps && Along(o, l.end) <= Along(o, out.end)
  }

  ghost predicate Covered(o: Axis, r: seq<Line>, l: Line, eps: real)
  {
    exists k :: 0 <= k < |r| && Reaches(o, r[k], l, eps)
  }

  /** No ruling is lost by merging: each input is represented by a merged ruling. */
  lemma {:induction false} MergeRunCovers(o: Axis, cur: Line, rest: seq<Line>, eps: real)
    requires 0.0 < eps
    ensures var r := MergeRun(o, cur, rest, eps);
      Covered(o, r, cur, eps) && forall j :: 0 <= j < |rest| ==> Covered(o, r, rest[j], eps)
    decreases |rest|
  {
    var r := MergeRun(o, cur, rest, eps);
    assert Reaches(o, r[0], cur, eps);
    if |rest| > 0 {
      if Joins(o, cur, rest[0], eps) {
        var jn := Join(o, cur, rest[0]);
        MergeRunCovers(o, jn, rest[1..], eps);
        assert Reaches(o, r[0], rest[0], eps);
        forall j | 1 <= j < |rest| ensures Covered(o, r, rest[j], eps) {
          assert rest[1..][j - 1] == rest[j];
        }
      } else {
        var m := MergeRun(o, rest[0], rest[1..], eps);
        MergeRunCovers(o, rest[0], rest[1..], eps);
        assert r == [cur] + m;
        forall j | 0 <= j < |rest| ensures Covered(o, r, rest[j], eps) {
          assert Covered(o, m, rest[j], eps) by {
            if j > 0 { assert rest[1..][j - 1] == rest[j]; }
          }
          var k :| 0 <= k < |m| && Reaches(o, m[k], rest[j], eps);
          assert r[k + 1] == m[k];
        }
      }
    }
  }

  /**
   * The `while i < len(lines)` merge loop of both extractions, over
   * non-empty normalised and sorted rulings.
   */
  method MergeRuns(o: Axis, lines: seq<Line>, eps: real) returns (newLines: seq<Line>)
    requires |lines| > 0
    ensures newLines == Merged(o, lines, eps)
  {
    newLines := [];
    var line := lines[0];
    var i := 1;
    while i < |lines|
      invariant 1 <= i <= |lines|
      invariant newLines + MergeRun(o, line, lines[i..], eps) == MergeRun(o, lines[0], lines[1..], eps)
      decreases |lines| - i
    {
      DropOne(lines, i);
      if Joins(o, line, lines[i], eps) {
        line := Join(o, line, lines[i]);
      } else {
        ConcatAssoc(newLines, [line], MergeRun(o, lines[i], lines[i + 1..], eps));
        newLines := newLines + [line];
        line := lines[i];
      }
      i := i + 1;
    }
    assert lines[i..] == [];
    newLines := newLines + [line];
  }

  // ------------------------------------------------------------- extraction

  function NotFound(o: Axis): Error
  {
    if o == Horizontal then HorizontalLineNotFound else VerticalLineNotFound
  }

  /**
   * `__ExtractRightTouchHorizontalLine` (Horizontal) and
   * `__ExtractBottomTouchVerticalLine` (Vertical): no candidate raises the
   * axis's not-found error; no horizontal touching the right side raises it
   * too, while an empty list of verticals touching the bottom is returned.
   */
  function Touching(o: Axis, frm: Frame, lines: seq<Line>, eps: real): Outcome<seq<Line>>
  {
    if |Candidates(o, frm, lines, eps)| == 0 then Fail(NotFound(o))
    else
      var t := Filter(Merged(o, Prepared(o, frm, lines, eps), eps), TouchTest(o, frm, eps));
      if o == Horizontal && |t| == 0 then Fail(HorizontalLineNotFound) else Ok(t)
  }

  /** A ruling starts where some normalised candidate starts. */
  ghost predicate FromCandidate(o: Axis, frm: Frame, lines: seq<Line>, eps: real, p: Point)
  {
    exists c :: c in Candidates(o, frm, lines, eps) && Normalise(o, c).start == p
  }

  /** What the prepared rulings are: normalised candidates, sorted. */
  lemma PreparedFacts(o: Axis, frm: Frame, lines: seq<Line>, eps: real)
    ensures var s := Prepared(o, frm, lines, eps);
      |s| == |Candidates(o, frm, lines, eps)| &&
      AcrossSorted(o, s) &&
      (forall k :: 0 <= k < |s| ==> Along(o, s[k].start) <= Along(o, s[k].end)) &&
      (forall k :: 0 <= k < |s| ==> FromCandidate(o, frm, lines, eps, s[k].start))
  {
    var c := Candidates(o, frm, lines, eps);
    var n := NormaliseAll(o, c);
    var s := Prepared(o, frm, lines, eps);
    SortBySorted(n, RulingKey(o));
    forall i, j | 0 <= i < j < |s| ensures Across(o, s[j].start) <= Across(o, s[i].start) {
      assert !KeyLt(RulingKey(o)(s[j]), RulingKey(o)(s[i]));
    }
    forall k | 0 <= k < |s|
      ensures Along(o, s[k].start) <= Along(o, s[k].end) && FromCandidate(o, frm, lines, eps, s[k].start)
    {
      SortByMembers(n, RulingKey(o), s[k]);
      var m :| 0 <= m < |n| && n[m] == s[k];
      assert c[m] in c;
    }
  }

  /** The merged rulings, before the touch filter. */
  lemma MergedFacts(o: Axis, frm: Frame, lines: seq<Line>, eps: real)
    ensures var s := Prepared(o, frm, lines, eps);
      var r := Merged(o, s, eps);
      AcrossSorted(o, r) &&
      (forall k :: 0 <= k < |r| ==> Along(o, r[k].start) <= Along(o, r[k].end)) &&
      (forall k :: 0 <= k < |r| ==> FromCandidate(o, frm, lines, eps, r[k].start))
  {
    PreparedFacts(o, frm, lines, eps);
    MergedKeeps(o, frm, lines, Prepared(o, frm, lines, eps), eps);
  }

  /** Merging keeps the order across the axis, the direction along it and where the rulings start. */
  lemma MergedKeeps(o: Axis, frm: Frame, lines: seq<Line>, s: seq<Line>, eps: real)
    requires AcrossSorted(o, s)
    requires forall k :: 0 <= k < |s| ==> Along(o, s[k].start) <= Along(o, s[k].end)
    requires forall k :: 0 <= k < |s| ==> FromCandidate(o, frm, lines, eps, s[k].start)
    ensures var r := Merged(o, s, eps);
      AcrossSorted(o, r) &&
      (forall k :: 0 <= k < |r| ==> Along(o, r[k].start) <= Along(o, r[k].end)) &&
      (forall k :: 0 <= k < |r| ==> FromCandidate(o, frm, lines, eps, r[k].start))
  {
    if |s| > 0 {
      var r := MergeRun(o, s[0], s[1..], eps);
      assert AcrossSorted(o, r) by {
        AcrossSortedTail(o, s);
        MergeRunSorted(o, s[0], s[1..], eps);
      }
      assert forall k :: 0 <= k < |r| ==> Along(o, r[k].start) <= Along(o, r[k].end) by {
        forall k | 0 <= k < |r| ensures Along(o, r[k].start) <= Along(o, r[k].end) {
          MergeRunNormal(o, s[0], s[1..], eps, k);
        }
      }
      assert forall k :: 0 <= k < |r| ==> FromCandidate(o, frm, lines, eps, r[k].start) by {
        forall k | 0 <= k < |r| ensures FromCandidate(o, frm, lines, eps, r[k].start) {
          var j := MergeRunStart(o, s[0], s[1..], eps, k);
          assert ([s[0]] + s[1..])[j] == s[j];
        }
      }
    }
  }

  /** Every normalised candidate is represented by a merged ruling. */
  lemma MergedCovers(o: Axis, frm: Frame, lines: seq<Line>, eps: real, c: Line)
    requires 0.0 < eps
    requires c in Candidates(o, frm, lines, eps)
    ensures Covered(o, Merged(o, Prepared(o, frm, lines, eps), eps), Normalise(o, c), eps)
  {
    var cs := Candidates(o, frm, lines, eps);
    var n := NormaliseAll(o, cs);
    var s := Prepared(o, frm, lines, eps);
    var m :| 0 <= m < |cs| && cs[m] == c;
    assert n[m] in n;
    SortByMembers(n, RulingKey(o), n[m]);
    var j :| 0 <= j < |s| && s[j] == n[m];
    MergeRunCovers(o, s[0], s[1..], eps);
    if j > 0 {
      assert s[1..][j - 1] == s[j];
    }
  }

  /** The extraction's result: normalised, sorted, touching the frame, starting at candidates. */
  lemma TouchingSound(o: Axis, frm: Frame, lines: seq<Line>, eps: real)
    ensures var t := Touching(o, frm, lines, eps);
      t.Ok? ==>
        |t.value| <= |Candidates(o, frm, lines, eps)| &&
        AcrossSorted(o, t.value) &&
        (forall k :: 0 <= k < |t.value| ==> Along(o, t.value[k].start) <= Along(o, t.value[k].end)) &&
        (forall k :: 0 <= k < |t.value| ==> TouchesFrame(o, frm, t.value[k], eps)) &&
        (forall k :: 0 <= k < |t.value| ==> FromCandidate(o, frm, lines, eps, t.value[k].start))
  {
    var t := Touching(o, frm, lines, eps);
    if t.Ok? {
      var r := Merged(o, Prepared(o, frm, lines, eps), eps);
      MergedFacts(o, frm, lines, eps);
      PreparedFacts(o, frm, lines, eps);
      FilterSubsequence(r, TouchTest(o, frm, eps));
      var f := Filter(r, TouchTest(o, frm, eps));
      assert t.value == f;
      forall k | 0 <= k < |f|
        ensures Along(o, f[k].start) <= Along(o, f[k].end) && FromCandidate(o, frm, lines, eps, f[k].start)
      {
        assert f[k] in r;
      }
    }
  }

  /** The filtered elements keep their order: a sorted sequence filters to a sorted one. */
  lemma {:induction false} FilterSubsequence(s: seq<Line>, p: Line -> bool)
    ensures forall o: Axis :: AcrossSorted(o, s) ==> AcrossSorted(o, Filter(s, p))
    decreases |s|
  {
    if |s| > 0 {
      var init := s[..|s| - 1];
      FilterSubsequence(init, p);
      forall o: Axis | AcrossSorted(o, s) ensures AcrossSorted(o, Filter(s, p)) {
        assert AcrossSorted(o, init);
        var f := Filter(init, p);
        forall k | 0 <= k < |f| ensures Across(o, s[|s| - 1].start) <= Across(o, f[k].start) {
          assert f[k] in init;
          var m :| 0 <= m < |init| && init[m] == f[k];
        }
      }
    }
  }

  /**
   * `__ExtractRightTouchHorizontalLine`: each returned ruling runs left to
   * right, ends within `eps` of the frame's right side, and starts where a
   * candidate starts (a candidate's original start lies strictly between the
   * frame's bottom and top, so the normalised start lies within `eps` of that
   * band); they come from the top down.  The error is raised exactly when no
   * horizontal candidate, or no right-touching merged horizontal, exists.
   */
  lemma RightTouchHorizontalSound(frm: Frame, lines: seq<Line>, eps: real)
    ensures var t := Touching(Horizontal, frm, lines, eps);
      (t.Fail? <==> |Candidates(Horizontal, frm, lines, eps)| == 0 ||
                    |Filter(Merged(Horizontal, Prepared(Horizontal, frm, lines, eps), eps), TouchTest(Horizontal, frm, eps))| == 0) &&
      (t.Fail? ==> t.error == HorizontalLineNotFound) &&
      (t.Ok? ==> forall k :: 0 <= k < |t.value| ==>
        t.value[k].start.x <= t.value[k].end.x &&
        Abs(t.value[k].end.x - frm.r) < eps &&
        frm.b - eps < t.value[k].start.y < frm.t + eps) &&
      (t.Ok? ==> forall i, j :: 0 <= i < j < |t.value| ==> t.value[j].start.y <= t.value[i].start.y)
  {
    var t := Touching(Horizontal, frm, lines, eps);
    TouchingSound(Horizontal, frm, lines, eps);
    if t.Ok? {
      forall k | 0 <= k < |t.value| ensures frm.b - eps < t.value[k].start.y < frm.t + eps {
        var c :| c in Candidates(Horizontal, frm, lines, eps) && Normalise(Horizontal, c).start == t.value[k].start;
        assert CandidateTest(Horizontal, frm, eps)(c);
      }
    }
  }

  /**
   * `__ExtractBottomTouchVerticalLine`: each returned ruling runs top down,
   * ends within `eps` of the frame's bottom, and starts strictly between the
   * frame's left and right sides; they come by ascending x.  The error is
   * raised exactly when no vertical candidate exists.
   */
  lemma BottomTouchVerticalSound(frm: Frame, lines: seq<Line>, eps: real)
    ensures var t := Touching(Vertical, frm, lines, eps);
      (t.Fail? <==> |Candidates(Vertical, frm, lines, eps)| == 0) &&
      (t.Fail? ==> t.error == VerticalLineNotFound) &&
      (t.Ok? ==> forall k :: 0 <= k < |t.value| ==>
        t.value[k].end.y <= t.value[k].start.y &&
        Abs(t.value[k].end.y - frm.b) < eps &&
        frm.l < t.value[k].start.x < frm.r) &&
      (t.Ok? ==> forall i, j :: 0 <= i < j < |t.value| ==> t.value[i].start.x <= t.value[j].start.x)
  {
    var t := Touching(Vertical, frm, lines, eps);
    TouchingSound(Vertical, frm, lines, eps);
    if t.Ok? {
      forall k | 0 <= k < |t.value| ensures frm.l < t.value[k].start.x < frm.r {
        var c :| c in Candidates(Vertical, frm, lines, eps) && Normalise(Vertical, c).start == t.value[k].start;
        assert CandidateTest(Vertical, frm, eps)(c);
      }
    }
  }

  /** The shared body of the two extractions: filter, normalise, sort, merge, keep the touching ones. */
  method ExtractTouching(o: Axis, frm: Frame, lines: seq<Line>, eps: real) returns (r: Outcome<seq<Line>>)
    ensures r == Touching(o, frm, lines, eps)
  {
    var candidates := Candidates(o, frm, lines, eps);
    if |candidates| == 0 {
      return Fail(NotFound(o));
    }
    var sorted := Prepared(o, frm, lines, eps);
    var newLines := MergeRuns(o, sorted, eps);
    var touchLines := Filter(newLines, TouchTest(o, frm, eps));
    if o == Horizontal && |touchLines| == 0 {
      return Fail(HorizontalLineNotFound);
    }
    return Ok(touchLines);
  }

  method ExtractRightTouchHorizontalLine(frm: Frame, lines: seq<Line>, eps: real) returns (r: Outcome<seq<Line>>)
    ensures r == Touching(Horizontal, frm, lines, eps)
  {
    r := ExtractTouching(Horizontal, frm, lines, eps);
  }

  method ExtractBottomTouchVerticalLine(frm: Frame, lines: seq<Line>, eps: real) returns (r: Outcome<seq<Line>>)
    ensures r == Touching(Vertical, frm, lines, eps)
  {
    r := ExtractTouching(Vertical, frm, lines, eps);
  }

  // ---------------------------------------------------------------- corner

  /**
   * The two-pointer scan of `__FindTopLeftCorner` from horizontal `i` and
   * vertical `j`: a matching pair of starts is the corner; a horizontal above
   * the vertical's top advances `i`, a vertical left of the horizontal's start
   * advances `j`, a crossing pair advances both; running off either list
   * raises.
   */
  /** One step of the scan when the starts differ: which of the two pointers move. */
  function Advance(h: Line, v: Line, i: nat, j: nat): (r: (nat, nat))
    ensures i <= r.0 && j <= r.1 && i + j < r.0 + r.1
  {
    if h.start.y > v.start.y then (i + 1, j)
    else if v.start.x < h.start.x then (i, j + 1)
    else (i + 1, j + 1)
  }

  function Corner(hl: seq<Line>, vl: seq<Line>, i: nat, j: nat, eps: real): Outcome<Point>
    requires i < |hl| && j < |vl|
    decreases |hl| - i + |vl| - j
  {
    var h, v := hl[i], vl[j];
    if IsSamePoint(h.start, v.start, eps) then Ok(h.start)
    else
      var (i', j') := Advance(h, v, i, j);
      if i' >= |hl| || j' >= |vl| then Fail(TopLeftCornerNotFound)
      else Corner(hl, vl, i', j', eps)
  }

  /** `__FindTopLeftCorner`; an empty list fails on its first index (`OtherError`). */
  function TopLeftCorner(hl: seq<Line>, vl: seq<Line>, eps: real): Outcome<Point>
  {
    if |hl| == 0 || |vl| == 0 then Fail(OtherError) else Corner(hl, vl, 0, 0, eps)
  }

  /** `p` is a horizontal's start lying within `eps` of a vertical's start. */
  ghost predicate CornerOf(hl: seq<Line>, vl: seq<Line>, p: Point, eps: real)
  {
    exists i, j :: 0 <= i < |hl| && 0 <= j < |vl| && hl[i].start == p && IsSamePoint(hl[i].start, vl[j].start, eps)
  }

  lemma {:induction false} CornerSound(hl: seq<Line>, vl: seq<Line>, i: nat, j: nat, eps: real)
    requires i < |hl| && j < |vl|
    ensures var c := Corner(hl, vl, i, j, eps);
      (c.Ok? ==> CornerOf(hl, vl, c.value, eps)) && (c.Fail? ==> c.error == TopLeftCornerNotFound)
    decreases |hl| - i + |vl| - j
  {
    var h, v := hl[i], vl[j];
    if !IsSamePoint(h.start, v.start, eps) {
      var (i', j') := Advance(h, v, i, j);
      if i' < |hl| && j' < |vl| {
        CornerSound(hl, vl, i', j', eps);
      }
    }
  }

  /**
   * A found corner is the start of a horizontal within `eps` of the start of
   * a vertical; the scan fails without a corner only by running off a list,
   * and with the index error exactly when a list is empty.
   */
  lemma TopLeftCornerSound(hl: seq<Line>, vl: seq<Line>, eps: real)
    ensures var c := TopLeftCorner(hl, vl, eps);
      (c.Ok? ==> CornerOf(hl, vl, c.value, eps)) &&
      (c.Fail? ==> c.error == TopLeftCornerNotFound || c.error == OtherError) &&
      (c == Fail(OtherError) <==> |hl| == 0 || |vl| == 0)
  {
    if |hl| > 0 && |vl| > 0 {
      CornerSound(hl, vl, 0, 0, eps);
    }
  }

  method FindTopLeftCorner(hl: seq<Line>, vl: seq<Line>, eps: real) returns (r: Outcome<Point>)
    ensures r == TopLeftCorner(hl, vl, eps)
  {
    if |hl| == 0 || |vl| == 0 {
      return Fail(OtherError);
    }
    var i, j := 0, 0;
    while true
      invariant i < |hl| && j < |vl|
      invariant Corner(hl, vl, i, j, eps) == TopLeftCorner(hl, vl, eps)
      decreases |hl| - i + |vl| - j
    {
      var hline, vline := hl[i], vl[j];
      if IsSamePoint(hline.start, vline.start, eps) {
        return Ok(Point(hline.start.x, hline.start.y));
      } else if hline.start.y > vline.start.y {
        i := i + 1;
      } else if vline.start.x < hline.start.x {
        j := j + 1;
      } else {
        i, j := i + 1, j + 1;
      }
      if i >= |hl| || j >= |vl| {
        return Fail(TopLeftCornerNotFound);
      }
    }
  }

  // ------------------------------------------------------------------ area

  /** The frame's sides from its two corner points. */
  function FrameOfPoints(fp: seq<Point>): Frame
    requires |fp| >= 2
  {
    Frame(Min(fp[0].x, fp[1].x), Max(fp[0].x, fp[1].x), Max(fp[0].y, fp[1].y), Min(fp[0].y, fp[1].y))
  }

  /**
   * What the vertical pass sees: the horizontal pass normalises its
   * candidates in place, and both passes filter the same line records.
   */
  function AfterHorizontalPass(frm: Frame, lines: seq<Line>, eps: real): (r: seq<Line>)
    ensures |r| == |lines|
  {
    seq(|lines|, k requires 0 <= k < |lines| =>
      if CandidateTest(Horizontal, frm, eps)(lines[k]) then Normalise(Horizontal, lines[k]) else lines[k])
  }

  /** The handler around the corner search: a missing corner means a missing title block. */
  function CornerFailure(e: Error): Error
  {
    if e == TopLeftCornerNotFound then TitleBlockNotFound else e
  }

  /** `__FindTitleBlockArea`: from the frame's corners and the LINE records, at tolerance `eps`. */
  function TitleBlockArea(fp: seq<Point>, lines: seq<Line>, eps: real): Outcome<Area>
  {
    if |fp| < 2 then Fail(OtherError)
    else
      var frm := FrameOfPoints(fp);
      var h := Touching(Horizontal, frm, lines, eps);
      if h.Fail? then Fail(h.error)
      else
        var v := Touching(Vertical, frm, AfterHorizontalPass(frm, lines, eps), eps);
        if v.Fail? then Fail(v.error)
        else
          var c := TopLeftCorner(h.value, v.value, eps);
          if c.Fail? then Fail(CornerFailure(c.error))
          else Ok(Area(c.value.y, c.value.x, frm.b, frm.r))
  }

  /**
   * The title block is bounded by the frame's bottom and right side; its
   * top-left corner is the start of a right-touching horizontal within `eps`
   * of the start of a bottom-touching vertical.  A missing corner is reported
   * as a missing title block.
   */
  lemma TitleBlockAreaSound(fp: seq<Point>, lines: seq<Line>, eps: real)
    ensures var a := TitleBlockArea(fp, lines, eps);
      (a.Ok? ==> (|fp| >= 2 &&
        a.value.bottom == Min(fp[0].y, fp[1].y) && a.value.right == Max(fp[0].x, fp[1].x) &&
        var frm := FrameOfPoints(fp);
        CornerOf(Touching(Horizontal, frm, lines, eps).value,
                 Touching(Vertical, frm, AfterHorizontalPass(frm, lines, eps), eps).value,
                 Point(a.value.left, a.value.top), eps))) &&
      (a.Fail? ==> a.error != TopLeftCornerNotFound) &&
      (|fp| < 2 ==> a == Fail(OtherError))
  {
    if |fp| >= 2 {
      var frm := FrameOfPoints(fp);
      var h := Touching(Horizontal, frm, lines, eps);
      RightTouchHorizontalSound(frm, lines, eps);
      if h.Ok? {
        var v := Touching(Vertical, frm, AfterHorizontalPass(frm, lines, eps), eps);
        BottomTouchVerticalSound(frm, AfterHorizontalPass(frm, lines, eps), eps);
        if v.Ok? {
          TopLeftCornerSound(h.value, v.value, eps);
        }
      }
    }
  }

  method FindTitleBlockArea(fp: seq<Point>, lines: seq<Line>, eps: real) returns (r: Outcome<Area>)
    ensures r == TitleBlockArea(fp, lines, eps)
  {
    if |fp| < 2 {
      return Fail(OtherError);
    }
    var frm := FrameOfPoints(fp);
    var hLines := ExtractRightTouchHorizontalLine(frm, lines, eps);
    if hLines.Fail? {
      return Fail(hLines.error);
    }
    var vLines := ExtractBottomTouchVerticalLine(frm, AfterHorizontalPass(frm, lines, eps), eps);
    if vLines.Fail? {
      return Fail(vLines.error);
    }
    var corner := FindTopLeftCorner(hLines.value, vLines.value, eps);
    if corner.Fail? {
      return Fail(CornerFailure(corner.error));
    }
    return Ok(Area(corner.value.y, corner.value.x, frm.b, frm.r));
  }

  // --------------------------------------------------------------- contact

  /** The extent of a line as `__IsContact` computes it. */
  datatype Extent = Extent(xmin: real, xmax: real, ymin: real, ymax: real, dx: real, dy: real)

  function ExtentOf(l: Line): Extent
  {
    var xmin, xmax := Min(l.start.x, l.end.x), Max(l.start.x, l.end.x);
    var ymin, ymax := Min(l.start.y, l.end.y), Max(l.start.y, l.end.y);
    Extent(xmin, xmax, ymin, ymax, xmax - xmin, ymax - ymin)
  }

  /**
   * `__IsContact`: the extents are perpendicular (within `eps`), and an end of
   * the horizontal lies on the vertical or an end of the vertical on the
   * horizontal.  The first line is taken as the vertical when its own width
   * is below `eps`.
   */
  predicate IsContact(a: Line, b: Line, eps: real)
  {
    ExtentsContact(ExtentOf(a), ExtentOf(b), eps)
  }

  /** `__IsContact` on the two extents it computes. */
  predicate ExtentsContact(ea: Extent, eb: Extent, eps: real)
  {
    if !Perpendicular(ea, eb, eps) then false
    else
      var v := if Abs(ea.dx) < eps then ea else eb;
      var h := if Abs(ea.dx) < eps then eb else ea;
      if (Abs(h.xmin - v.xmax) < eps || Abs(h.xmax - v.xmax) < eps) && v.ymin - eps < h.ymin < v.ymax + eps then true
      else (Abs(v.ymin - h.ymin) < eps || Abs(v.ymax - h.ymin) < eps) && h.xmin - eps < v.xmin < h.xmax + eps
  }

  /** The perpendicularity test `abs(dx1 * dx2 + dy1 * dy2) <= eps` of the two extents. */
  predicate Perpendicular(ea: Extent, eb: Extent, eps: real)
  {
    Abs(ea.dx * eb.dx + ea.dy * eb.dy) <= eps
  }

  /** Lines that are not perpendicular within `eps` never touch. */
  lemma ContactNeedsPerpendicular(a: Line, b: Line, eps: real)
    ensures !Perpendicular(ExtentOf(a), ExtentOf(b), eps) ==> !IsContact(a, b, eps)
  {
    ExtentsNeedPerpendicular(ExtentOf(a), ExtentOf(b), eps);
  }

  lemma ExtentsNeedPerpendicular(ea: Extent, eb: Extent, eps: real)
    ensures !Perpendicular(ea, eb, eps) ==> !ExtentsContact(ea, eb, eps)
  {
  }

  /** The direction of either line does not matter: contact depends on the extents only. */
  lemma ContactIgnoresDirection(a: Line, b: Line, eps: real)
    ensures IsContact(Line(a.end, a.start), b, eps) == IsContact(a, b, eps)
    ensures IsContact(a, Line(b.end, b.start), eps) == IsContact(a, b, eps)
  {
    ExtentOfReversed(a);
    ExtentOfReversed(b);
  }

  lemma ExtentOfReversed(l: Line)
    ensures ExtentOf(Line(l.end, l.start)) == ExtentOf(l)
  {
  }

  /**
   * A T or an L: for an exact horizontal (at least `eps` long) and an exact
   * vertical, an end of one on the other means contact, in either order.
   */
  lemma TeeContacts(h: Line, v: Line, eps: real)
    requires 0.0 < eps
    requires h.start.y == h.end.y && v.start.x == v.end.x
    requires eps <= Abs(h.end.x - h.start.x)
    requires ((h.start.x == v.start.x || h.end.x == v.start.x) &&
              Min(v.start.y, v.end.y) <= h.start.y <= Max(v.start.y, v.end.y)) ||
             ((v.start.y == h.start.y || v.end.y == h.start.y) &&
              Min(h.start.x, h.end.x) <= v.start.x <= Max(h.start.x, h.end.x))
    ensures IsContact(h, v, eps) && IsContact(v, h, eps)
  {
    var eh, ev := ExtentOf(h), ExtentOf(v);
    assert eh.dy == 0.0 && ev.dx == 0.0;
    assert eh.dx * ev.dx + eh.dy * ev.dy == 0.0;
  }

  /** A plus: a vertical crossing a horizontal at least `eps` away from all four ends is no contact. */
  lemma CrossingIsNoContact(h: Line, v: Line, eps: real)
    requires 0.0 < eps
    requires h.start.y == h.end.y && v.start.x == v.end.x
    requires Min(h.start.x, h.end.x) + eps <= v.start.x <= Max(h.start.x, h.end.x) - eps
    requires Min(v.start.y, v.end.y) + eps <= h.start.y <= Max(v.start.y, v.end.y) - eps
    ensures !IsContact(h, v, eps) && !IsContact(v, h, eps)
  {
  }

  /**
   * `__IsContact` with its tolerance fixed, as the relation the worklist
   * tests; the worklist's own properties hold for any relation.
   */
  function ContactTest(eps: real): (Line, Line) -> bool
  {
    (a: Line, b: Line) => IsContact(a, b, eps)
  }

  /** `a` touches some ruling of `s`: the inner `for ... break ... else` test. */
  predicate Touches(a: Line, s: seq<Line>, touch: (Line, Line) -> bool)
  {
    exists k :: 0 <= k < |s| && touch(a, s[k])
  }

  lemma TouchesAppend(a: Line, s: seq<Line>, t: seq<Line>, touch: (Line, Line) -> bool)
    ensures Touches(a, s + t, touch) <==> Touches(a, s, touch) || Touches(a, t, touch)
  {
    if Touches(a, s + t, touch) {
      var k :| 0 <= k < |s + t| && touch(a, (s + t)[k]);
      if k >= |s| {
        assert t[k - |s|] == (s + t)[k];
      }
    }
    if Touches(a, s, touch) {
      var k :| 0 <= k < |s| && touch(a, s[k]);
      assert (s + t)[k] == s[k];
    }
    if Touches(a, t, touch) {
      var k :| 0 <= k < |t| && touch(a, t[k]);
      assert (s + t)[|s| + k] == t[k];
    }
  }

  /** The search loop over `lines2` for one line of `lines1`. */
  method AnyContact(l1: Line, lines2: seq<Line>, eps: real) returns (found: bool)
    ensures found == Touches(l1, lines2, ContactTest(eps))
  {
    for j := 0 to |lines2|
      invariant forall k :: 0 <= k < j ==> !IsContact(l1, lines2[k], eps)
    {
      if IsContact(l1, lines2[j], eps) {
        assert ContactTest(eps)(l1, lines2[j]);
        return true;
      }
    }
    return false;
  }

  // -------------------------------------------------------------- worklist

  /** The four sides of the block in the order top, right, bottom, left. */
  function Sides(a: Area): (r: seq<Line>)
    ensures |r| == 4
  {
    [Line(Point(a.left, a.top), Point(a.right, a.top)),
     Line(Point(a.right, a.top), Point(a.right, a.bottom)),
     Line(Point(a.right, a.bottom), Point(a.left, a.bottom)),
     Line(Point(a.left, a.bottom), Point(a.left, a.top))]
  }

  /** No line of `s` touches a line of `t`. */
  predicate Apart(s: seq<Line>, t: seq<Line>, touch: (Line, Line) -> bool)
  {
    forall k :: 0 <= k < |s| ==> !Touches(s[k], t, touch)
  }

  /** Every line of `s` touches a line of `t`. */
  predicate AllTouch(s: seq<Line>, t: seq<Line>, touch: (Line, Line) -> bool)
  {
    forall k :: 0 <= k < |s| ==> Touches(s[k], t, touch)
  }

  /** One round of the worklist: the lines of `l1` that touch none of `l2`, and those that touch one. */
  function Split(l1: seq<Line>, l2: seq<Line>, touch: (Line, Line) -> bool): (r: (seq<Line>, seq<Line>))
    ensures |r.0| + |r.1| == |l1|
    ensures multiset(r.0) + multiset(r.1) == multiset(l1)
    ensures Apart(r.0, l2, touch)
    ensures AllTouch(r.1, l2, touch)
    decreases |l1|
  {
    if |l1| == 0 then ([], [])
    else
      var last := l1[|l1| - 1];
      assert l1 == l1[..|l1| - 1] + [last];
      var r := Split(l1[..|l1| - 1], l2, touch);
      if Touches(last, l2, touch) then (r.0, r.1 + [last]) else (r.0 + [last], r.1)
  }

  /**
   * The worklist of `__ExtractTitleBlockLines` from untested lines `l1`, the
   * rulings `l2` found last and all rulings `bt` so far: the final rulings and
   * the lines left over.
   */
  function Close(l1: seq<Line>, l2: seq<Line>, bt: seq<Line>, touch: (Line, Line) -> bool): (r: (seq<Line>, seq<Line>))
    ensures |bt| <= |r.0| && r.0[..|bt|] == bt
    decreases |l1|
  {
    var n := Split(l1, l2, touch);
    if |n.1| == 0 then (bt, l1) else Close(n.0, n.1, bt + n.1, touch)
  }

  /** `__ExtractTitleBlockLines`: the rulings found, without the four sides. */
  function TitleBlockLines(a: Area, lines: seq<Line>, eps: real): seq<Line>
  {
    Close(lines, Sides(a), Sides(a), ContactTest(eps)).0[4..]
  }

  /** The candidate lines the worklist leaves behind. */
  function Leftovers(a: Area, lines: seq<Line>, eps: real): seq<Line>
  {
    Close(lines, Sides(a), Sides(a), ContactTest(eps)).1
  }

  /** Ruling `k` of `bt` touches a ruling before it. */
  ghost predicate Linked(bt: seq<Line>, k: nat, touch: (Line, Line) -> bool)
    requires k < |bt|
  {
    exists m :: 0 <= m < k && touch(bt[k], bt[m])
  }

  /** Every ruling after the four sides is linked. */
  ghost predicate AllLinked(bt: seq<Line>, touch: (Line, Line) -> bool)
  {
    forall k :: 4 <= k < |bt| ==> Linked(bt, k, touch)
  }

  /** Lines touching neither `pre` nor `l2` touch none of `pre + l2`. */
  lemma ApartFromBoth(s: seq<Line>, pre: seq<Line>, l2: seq<Line>, touch: (Line, Line) -> bool)
    requires Apart(s, pre, touch)
    requires Apart(s, l2, touch)
    ensures Apart(s, pre + l2, touch)
  {
    forall k | 0 <= k < |s| ensures !Touches(s[k], pre + l2, touch) {
      TouchesAppend(s[k], pre, l2, touch);
    }
  }

  /** A sub-multiset of lines apart from `pre` is apart from `pre`. */
  lemma ApartSubset(s: seq<Line>, l1: seq<Line>, pre: seq<Line>, touch: (Line, Line) -> bool)
    requires multiset(s) <= multiset(l1)
    requires Apart(l1, pre, touch)
    ensures Apart(s, pre, touch)
  {
    forall k | 0 <= k < |s| ensures !Touches(s[k], pre, touch) {
      assert s[k] in multiset(l1);
      var m :| 0 <= m < |l1| && l1[m] == s[k];
    }
  }

  /** Appending rulings that each touch one of `l2`, the tail of `bt`, keeps every ruling linked. */
  lemma LinkedExtend(pre: seq<Line>, l2: seq<Line>, n1: seq<Line>, touch: (Line, Line) -> bool)
    requires AllLinked(pre + l2, touch)
    requires AllTouch(n1, l2, touch)
    ensures AllLinked(pre + l2 + n1, touch)
  {
    var bt := pre + l2;
    var bt2 := bt + n1;
    forall k | 4 <= k < |bt2| ensures Linked(bt2, k, touch) {
      if k < |bt| {
        assert Linked(bt, k, touch);
        var m :| 0 <= m < k && touch(bt[k], bt[m]);
        assert bt2[k] == bt[k] && bt2[m] == bt[m];
      } else {
        var a := n1[k - |bt|];
        assert Touches(a, l2, touch);
        var m :| 0 <= m < |l2| && touch(a, l2[m]);
        assert bt2[|pre| + m] == l2[m] && bt2[k] == a;
      }
    }
  }

  lemma {:induction false} CloseSound(l1: seq<Line>, l2: seq<Line>, pre: seq<Line>, touch: (Line, Line) -> bool)
    requires Apart(l1, pre, touch)
    requires AllLinked(pre + l2, touch)
    ensures var r := Close(l1, l2, pre + l2, touch);
      multiset(r.0[|pre + l2|..]) + multiset(r.1) == multiset(l1) &&
      Apart(r.1, r.0, touch) &&
      AllLinked(r.0, touch)
    decreases |l1|
  {
    var bt := pre + l2;
    var n := Split(l1, l2, touch);
    if |n.1| == 0 {
      ApartSubset(l1, n.0, l2, touch);
      ApartFromBoth(l1, pre, l2, touch);
      assert bt[|bt|..] == [];
    } else {
      assert multiset(n.0) <= multiset(l1) by {
        PartOfSum(multiset(n.0), multiset(n.1), multiset(l1));
      }
      ApartSubset(n.0, l1, pre, touch);
      ApartFromBoth(n.0, pre, l2, touch);
      LinkedExtend(pre, l2, n.1, touch);
      CloseSound(n.0, n.1, bt, touch);
      var r := Close(n.0, n.1, bt + n.1, touch);
      SliceAfter(r.0, bt, n.1);
    }
  }

  /**
   * The worklist's fixpoint: the rulings kept and the lines left over
   * partition the candidates; each ruling kept touches a side or a ruling
   * kept before it; no line left over touches a side or any ruling kept.
   */
  lemma TitleBlockLinesSound(a: Area, lines: seq<Line>, eps: real)
    ensures var r, left := TitleBlockLines(a, lines, eps), Leftovers(a, lines, eps);
      multiset(r) + multiset(left) == multiset(lines) &&
      (forall k :: 4 <= k < 4 + |r| ==> Linked(Sides(a) + r, k, ContactTest(eps))) &&
      (forall k :: 0 <= k < |left| ==> !Touches(left[k], Sides(a) + r, ContactTest(eps)))
  {
    var c := Close(lines, Sides(a), Sides(a), ContactTest(eps));
    assert [] + Sides(a) == Sides(a);
    CloseSound(lines, Sides(a), [], ContactTest(eps));
    assert Sides(a) + c.0[4..] == c.0;
  }

  /** The inner `for l1 in lines1` loop of one round. */
  method ContactRound(lines1: seq<Line>, lines2: seq<Line>, eps: real) returns (nxt1: seq<Line>, nxt2: seq<Line>)
    ensures (nxt1, nxt2) == Split(lines1, lines2, ContactTest(eps))
  {
    nxt1, nxt2 := [], [];
    for i := 0 to |lines1|
      invariant (nxt1, nxt2) == Split(lines1[..i], lines2, ContactTest(eps))
    {
      var l1 := lines1[i];
      var touching := AnyContact(l1, lines2, eps);
      PrefixStep(lines1, i);
      if touching {
        nxt2 := nxt2 + [l1];
      } else {
        nxt1 := nxt1 + [l1];
      }
    }
    assert lines1[..|lines1|] == lines1;
  }

  method ExtractTitleBlockLines(area: Area, lines: seq<Line>, eps: real) returns (r: seq<Line>)
    ensures r == TitleBlockLines(area, lines, eps)
  {
    var btLines := Sides(area);
    var lines1, lines2 := lines, btLines;
    while true
      invariant Close(lines1, lines2, btLines, ContactTest(eps)) == Close(lines, Sides(area), Sides(area), ContactTest(eps))
      decreases |lines1|
    {
      var nxt1, nxt2 := ContactRound(lines1, lines2, eps);
      if |nxt2| == 0 {
        break;
      }
      btLines := btLines + nxt2;
      lines1, lines2 := nxt1, nxt2;
    }
    r := btLines[4..];
  }

  /** Filters `c1`..`c6` of `__ExtractLinesInTitleBlock`: a horizontal or vertical with both ends inside the block widened by `eps`. */
  predicate InBlock(a: Area, l: Line, eps: real)
  {
    (IsRuling(Horizontal, l, eps) || IsRuling(Vertical, l, eps)) &&
    a.left - eps < l.start.x < a.right + eps && a.bottom - eps < l.start.y < a.top + eps &&
    a.left - eps < l.end.x < a.right + eps && a.bottom - eps < l.end.y < a.top + eps
  }

  function InBlockTest(a: Area, eps: real): Line -> bool
  {
    (l: Line) => InBlock(a, l, eps)
  }

  /** `__ExtractLinesInTitleBlock`: the rulings of the block connected to its sides. */
  function Rulings(a: Area, lines: seq<Line>, eps: real): seq<Line>
  {
    TitleBlockLines(a, Filter(lines, InBlockTest(a, eps)), eps)
  }

  method ExtractLinesInTitleBlock(a: Area, lines: seq<Line>, eps: real) returns (r: seq<Line>)
    ensures r == Rulings(a, lines, eps)
  {
    var inBlock := Filter(lines, InBlockTest(a, eps));
    r := ExtractTitleBlockLines(a, inBlock, eps);
  }

  // ------------------------------------------------------------ error lines

  /** The two lines have the same ends within `eps`, in the same or the opposite direction. */
  predicate SameLine(l1: Line, l2: Line, eps: real)
  {
    (IsSamePoint(l1.start, l2.start, eps) && IsSamePoint(l1.end, l2.end, eps)) ||
    (IsSamePoint(l1.start, l2.end, eps) && IsSamePoint(l1.end, l2.start, eps))
  }

  predicate Matched(l: Line, lines1: seq<Line>)
  {
    exists k :: 0 <= k < |lines1| && SameLine(lines1[k], l, Eps1)
  }

  function UnmatchedTest(lines1: seq<Line>): Line -> bool
  {
    (l: Line) => !Matched(l, lines1)
  }

  /** `__ExtractErrorLines`: the rulings of `lines2` that `lines1` lacks, in order. */
  function ErrorLines(lines1: seq<Line>, lines2: seq<Line>): seq<Line>
  {
    Filter(lines2, UnmatchedTest(lines1))
  }

  /** Exactly the rulings of `lines2` matched by no ruling of `lines1`, none when every one is matched. */
  lemma ErrorLinesSound(lines1: seq<Line>, lines2: seq<Line>)
    ensures forall l :: l in ErrorLines(lines1, lines2) <==> l in lines2 && !Matched(l, lines1)
    ensures |ErrorLines(lines1, lines2)| <= |lines2|
    ensures (forall k :: 0 <= k < |lines2| ==> Matched(lines2[k], lines1)) ==> ErrorLines(lines1, lines2) == []
  {
    var e := ErrorLines(lines1, lines2);
    if |e| > 0 {
      assert e[0] in lines2;
    }
  }

  method AnySameLine(l2: Line, lines1: seq<Line>) returns (found: bool)
    ensures found == Matched(l2, lines1)
  {
    for j := 0 to |lines1|
      invariant forall k :: 0 <= k < j ==> !SameLine(lines1[k], l2, Eps1)
    {
      if SameLine(lines1[j], l2, Eps1) {
        return true;
      }
    }
    return false;
  }

  method ExtractErrorLines(lines1: seq<Line>, lines2: seq<Line>) returns (errorLines: seq<Line>)
    ensures errorLines == ErrorLines(lines1, lines2)
  {
    errorLines := [];
    for i := 0 to |lines2|
      invariant errorLines == Filter(lines2[..i], UnmatchedTest(lines1))
    {
      var l2 := lines2[i];
      var matched := AnySameLine(l2, lines1);
      PrefixStep(lines2, i);
      if !matched {
        errorLines := errorLines + [l2];
      }
    }
    assert lines2[..|lines2|] == lines2;
  }

  // ----------------------------------------------------------------- report

  /** Where a title block is pointed at: the middle of its right side. */
  function BlockPos(a: Area): Point
  {
    Point(a.right, (a.top + a.bottom) / 2.0)
  }

  function RulingResult(num: nat, el: Line): CheckResult
  {
    CheckResult(num, InspectType, true, Some(MiddlePoint(el)), RulingCaption, RulingDesc, ErrorColor)
  }

  /** The strict detection: the block found, then one error per badly connected ruling. */
  function SuccessResults(a: Area, errorLines: seq<Line>): seq<CheckResult>
  {
    [CheckResult(1, InspectType, false, Some(BlockPos(a)), FoundCaption, FoundDesc, BlockColor)] +
    seq(|errorLines|, k requires 0 <= k < |errorLines| => RulingResult(k + 2, errorLines[k]))
  }

  /** The relaxed detection: the block is there, but its frame is not connected. */
  function Suspect(a: Area): CheckResult
  {
    CheckResult(1, InspectType, true, Some(BlockPos(a)), SuspectCaption, SuspectDesc, ErrorColor)
  }

  const Missing: CheckResult := CheckResult(1, InspectType, true, None, MissingCaption, MissingDesc, ErrorColor)

  /** The generic failure, whose text is passed in the caption's position. */
  const Absent: CheckResult := CheckResult(1, InspectType, true, None, AbsentCaption, "", ErrorColor)

  /** The exceptions that trigger the relaxed retry. */
  predicate Retried(e: Error)
  {
    e == HorizontalLineNotFound || e == VerticalLineNotFound || e == TitleBlockNotFound
  }

  /**
   * The three outcomes of `inspect_doc`: the strict search succeeds; it fails
   * with a not-found error and the relaxed search decides; or it fails
   * otherwise.
   */
  function Report(strict: Outcome<Area>, errorLines: seq<Line>, relaxed: Outcome<Area>): seq<CheckResult>
  {
    if strict.Ok? then SuccessResults(strict.value, errorLines)
    else if Retried(strict.error) then (if relaxed.Ok? then [Suspect(relaxed.value)] else [Missing])
    else [Absent]
  }

  /**
   * The title-block check reports the block as found (and no error) exactly
   * when the strict search succeeds, followed by one error per error line at
   * its midpoint; a failed strict search yields one error, pointing at the
   * relaxed block when the retry finds one.  Ordinals run 1, 2, ...
   */
  lemma ReportSound(strict: Outcome<Area>, errorLines: seq<Line>, relaxed: Outcome<Area>)
    ensures var rs := Report(strict, errorLines, relaxed);
      |rs| >= 1 && NumberedFrom(rs, 1) &&
      (forall k :: 0 <= k < |rs| ==> rs[k].checkType == InspectType) &&
      (!rs[0].error <==> strict.Ok?) &&
      (strict.Ok? ==>
        |rs| == 1 + |errorLines| && rs[0].pos == Some(BlockPos(strict.value)) && rs[0].caption == FoundCaption &&
        forall k :: 1 <= k < |rs| ==>
          rs[k].error && rs[k].pos == Some(MiddlePoint(errorLines[k - 1])) && rs[k].caption == RulingCaption) &&
      (strict.Fail? ==> |rs| == 1 && rs[0].error) &&
      (strict.Fail? && Retried(strict.error) ==>
        (rs[0].pos.Some? <==> relaxed.Ok?) &&
        (relaxed.Ok? ==> rs[0].caption == SuspectCaption && rs[0].pos == Some(BlockPos(relaxed.value)))) &&
      (strict.Fail? && !Retried(strict.error) ==> rs[0].caption == AbsentCaption && rs[0].pos.None?)
  {
    if strict.Ok? {
      SuccessResultsFacts(strict.value, errorLines);
    }
  }

  lemma SuccessResultsFacts(a: Area, errorLines: seq<Line>)
    ensures var rs := SuccessResults(a, errorLines);
      |rs| == 1 + |errorLines| && NumberedFrom(rs, 1) &&
      (forall k :: 0 <= k < |rs| ==> rs[k].checkType == InspectType) &&
      !rs[0].error && rs[0].pos == Some(BlockPos(a)) && rs[0].caption == FoundCaption &&
      forall k :: 1 <= k < |rs| ==>
        rs[k].error && rs[k].pos == Some(MiddlePoint(errorLines[k - 1])) && rs[k].caption == RulingCaption
  {
    var rs := SuccessResults(a, errorLines);
    forall k | 1 <= k < |rs|
      ensures rs[k] == RulingResult(k + 1, errorLines[k - 1])
    {
    }
  }

  /** The strict search's error lines: computed only when the relaxed rulings outnumber the strict ones. */
  function StrictErrorLines(a: Area, lines: seq<Line>): seq<Line>
  {
    var lines1, lines2 := Rulings(a, lines, Eps1), Rulings(a, lines, Eps2);
    if |lines1| < |lines2| then ErrorLines(lines1, lines2) else []
  }

  /** `CheckTitleBlock.inspect_doc` on a drawing and the frame result, without the drawing output. */
  function Inspection(d: Drawing, fr: FrameExtractor.FrameResult): seq<CheckResult>
  {
    var lines := LinesOf(d.entities);
    var strict := TitleBlockArea(fr.framePoint, lines, Eps1);
    var errorLines := if strict.Ok? then StrictErrorLines(strict.value, lines) else [];
    Report(strict, errorLines, TitleBlockArea(fr.framePoint, lines, Eps2))
  }

  /**
   * On a strict detection the check reports one error per relaxed ruling
   * that no strict ruling matches, and none unless the relaxed rulings
   * outnumber the strict ones.
   */
  lemma InspectionErrors(d: Drawing, fr: FrameExtractor.FrameResult)
    requires TitleBlockArea(fr.framePoint, LinesOf(d.entities), Eps1).Ok?
    ensures var lines := LinesOf(d.entities);
      var a := TitleBlockArea(fr.framePoint, lines, Eps1).value;
      var lines1, lines2 := Rulings(a, lines, Eps1), Rulings(a, lines, Eps2);
      var rs := Inspection(d, fr);
      (|lines2| <= |lines1| ==> |rs| == 1) &&
      (|lines1| < |lines2| ==> |rs| == 1 + |ErrorLines(lines1, lines2)|) &&
      (forall l :: l in StrictErrorLines(a, lines) <==> |lines1| < |lines2| && l in lines2 && !Matched(l, lines1))
  {
    var lines := LinesOf(d.entities);
    var a := TitleBlockArea(fr.framePoint, lines, Eps1).value;
    ErrorLinesSound(Rulings(a, lines, Eps1), Rulings(a, lines, Eps2));
    ReportSound(TitleBlockArea(fr.framePoint, lines, Eps1), StrictErrorLines(a, lines), TitleBlockArea(fr.framePoint, lines, Eps2));
  }

  /** The loop registering the error lines after the block. */
  method ReportSuccess(a: Area, errorLines: seq<Line>) returns (results: seq<CheckResult>)
    ensures results == SuccessResults(a, errorLines)
  {
    results := [CheckResult(1, InspectType, false, Some(BlockPos(a)), FoundCaption, FoundDesc, BlockColor)];
    for k := 0 to |errorLines|
      invariant results == SuccessResults(a, errorLines[..k])
    {
      results := results + [RulingResult(|results| + 1, errorLines[k])];
      assert results == SuccessResults(a, errorLines[..k + 1]);
    }
    assert errorLines[..|errorLines|] == errorLines;
  }

  method InspectDoc(d: Drawing, fr: FrameExtractor.FrameResult) returns (results: seq<CheckResult>)
    ensures results == Inspection(d, fr)
  {
    var lines := LinesOf(d.entities);
    var tbArea := FindTitleBlockArea(fr.framePoint, lines, Eps1);
    if tbArea.Ok? {
      var lines1 := ExtractLinesInTitleBlock(tbArea.value, lines, Eps1);
      var lines2 := ExtractLinesInTitleBlock(tbArea.value, lines, Eps2);
      var errorLines := [];
      if |lines1| < |lines2| {
        errorLines := ExtractErrorLines(lines1, lines2);
      }
      results := ReportSuccess(tbArea.value, errorLines);
    } else if Retried(tbArea.error) {
      var tbArea2 := FindTitleBlockArea(fr.framePoint, lines, Eps2);
      results := if tbArea2.Ok? then [Suspect(tbArea2.value)] else [Missing];
    } else {
      results := [Absent];
    }
  }

  // ------------------------------------------------- the handlers as written

  /**
   * The handler around the corner search as written prints `e.__name__` of
   * an exception instance, which raises again: the corner failure leaves
   * `__FindTitleBlockArea` as another exception.
   */
  function CornerFailureAsWritten(e: Error): Error
  {
    OtherError
  }

  /** With that handler a missing corner skips the relaxed retry; the corrected handler retries. */
  lemma CornerFailureAsWrittenSkipsRetry(a: Area)
    ensures Report(Fail(CornerFailureAsWritten(TopLeftCornerNotFound)), [], Ok(a)) == [Absent]
    ensures Report(Fail(CornerFailure(TopLeftCornerNotFound)), [], Ok(a)) == [Suspect(a)]
  {
  }

  /**
   * The report as written: after a successful relaxed search the handler
   * reads the misspelt `inspect_type`, which raises, so the outcome is always
   * the missing-block result.
   */
  function ReportAsWritten(strict: Outcome<Area>, errorLines: seq<Line>, relaxed: Outcome<Area>): seq<CheckResult>
  {
    if strict.Fail? && Retried(strict.error) then [Missing] else Report(strict, errorLines, relaxed)
  }

  /** A block found only under the relaxed tolerance is reported as missing as written, and as suspect when corrected. */
  lemma ReportAsWrittenHidesSuspect(a: Area)
    ensures ReportAsWritten(Fail(HorizontalLineNotFound), [], Ok(a)) == [Missing]
    ensures Report(Fail(HorizontalLineNotFound), [], Ok(a)) == [Suspect(a)]
    ensures Missing.pos.None? && Suspect(a).pos.Some?
  {
  }
}
