/**
 * Frame (drawing border) detection.  Per layer, horizontal and vertical
 * lines are grouped by position and overlapping ones merged
 * (`CombinedLine`); among the three longest horizontals and verticals the
 * first pair of each that closes a rough rectangle is the frame
 * (`FrameField`); and the layer decision picks the frame of a single layer
 * when the union of all layers has one (`detect_frame`).
 */
module FrameExtractor {
  import opened Geometry
  import opened Sorting
  import opened Entities
  import opened FiniteSets
  import opened SeqFacts

  // ------------------------------------------------------------ orientation

  /**
   * |sin(angle)| < sin(5 degrees), in squares.  A zero vector has angle 0 and
   * so counts as horizontal.
   */
  predicate IsHorizontal(lib: Lib, l: Line)
  {
    var v := Direction(l);
    NormSq(v) == 0.0 || v.y * v.y < lib.sinSq5 * NormSq(v)
  }

  /** |cos(angle)| < cos(85 degrees) = sin(5 degrees), in squares. */
  predicate IsVertical(lib: Lib, l: Line)
  {
    var v := Direction(l);
    v.x * v.x < lib.sinSq5 * NormSq(v)
  }

  /** With a threshold of at most sin^2(45 degrees) no line is both horizontal and vertical. */
  lemma OrientationExclusive(lib: Lib, l: Line)
    requires 0.0 <= lib.sinSq5 <= 0.5
    ensures !(IsHorizontal(lib, l) && IsVertical(lib, l))
  {
    var v := Direction(l);
    SquaresBelowHalf(v.x * v.x, v.y * v.y, lib.sinSq5);
  }

  lemma SquaresBelowHalf(a: real, b: real, s: real)
    requires 0.0 <= a && 0.0 <= b && 0.0 <= s <= 0.5
    ensures !((a + b == 0.0 || b < s * (a + b)) && a < s * (a + b))
  {
    assert 0.0 <= (0.5 - s) * (a + b);
    assert s * (a + b) <= 0.5 * (a + b);
  }

  function Horizontals(lib: Lib, ls: seq<Line>): (r: seq<Line>)
    ensures forall l :: l in r <==> l in ls && IsHorizontal(lib, l)
  {
    if |ls| == 0 then []
    else (if IsHorizontal(lib, ls[0]) then [ls[0]] else []) + Horizontals(lib, ls[1..])
  }

  function Verticals(lib: Lib, ls: seq<Line>): (r: seq<Line>)
    ensures forall l :: l in r <==> l in ls && IsVertical(lib, l)
  {
    if |ls| == 0 then []
    else (if IsVertical(lib, ls[0]) then [ls[0]] else []) + Verticals(lib, ls[1..])
  }

  /** The classification loop shared by `getCombinedLines` and `detectCursoryFrame`. */
  method Classify(lib: Lib, ls: seq<Line>) returns (horizontal: seq<Line>, vertical: seq<Line>)
    ensures horizontal == Horizontals(lib, ls) && vertical == Verticals(lib, ls)
  {
    horizontal, vertical := [], [];
    var k := |ls|;
    // Built from the back so that each step is one cons onto the filter of a suffix.
    while k > 0
      invariant 0 <= k <= |ls|
      invariant horizontal == Horizontals(lib, ls[k..]) && vertical == Verticals(lib, ls[k..])
    {
      k := k - 1;
      assert ls[k..][1..] == ls[k + 1..];
      if IsHorizontal(lib, ls[k]) { horizontal := [ls[k]] + horizontal; }
      if IsVertical(lib, ls[k]) { vertical := [ls[k]] + vertical; }
    }
  }

  // --------------------------------------------------------------- grouping

  /** Indices i < n whose key lies within `tol` of key k, in increasing order. */
  function Near(keys: seq<real>, k: nat, tol: real, n: nat): (r: seq<nat>)
    requires k < |keys| && n <= |keys|
    ensures forall i: nat :: i in r <==> i < n && keys[k] - tol <= keys[i] <= keys[k] + tol
    ensures forall a, b :: 0 <= a < b < |r| ==> r[a] < r[b]
  {
    if n == 0 then []
    else
      var r0 := Near(keys, k, tol, n - 1);
      assert forall a :: 0 <= a < |r0| ==> r0[a] in r0;
      assert forall a :: 0 <= a < |r0| ==> r0[a] < n - 1;
      r0 + (if keys[k] - tol <= keys[n - 1] <= keys[k] + tol then [n - 1] else [])
  }

  /** Line k is already a member of one of the groups. */
  function InSome(groups: seq<seq<nat>>, k: nat): (r: bool)
    ensures r <==> exists m :: 0 <= m < |groups| && k in groups[m]
  {
    if |groups| == 0 then false
    else k in groups[0] || (assert forall m :: 0 < m < |groups| ==> groups[1..][m - 1] == groups[m]; InSome(groups[1..], k))
  }

  /**
   * The groups after the first n lines: a line that is in no group yet opens
   * a group of every line within `tol` of it.  (The source keys the groups by
   * the opener's coordinate; with tol >= 0 no two openers share a key, so the
   * groups come in opening order.)
   */
  function Groups(keys: seq<real>, tol: real, n: nat): (r: seq<seq<nat>>)
    requires n <= |keys|
    ensures forall m, q :: 0 <= m < |r| && 0 <= q < |r[m]| ==> r[m][q] < |keys|
  {
    if n == 0 then []
    else
      var g := Groups(keys, tol, n - 1);
      var nearN := Near(keys, n - 1, tol, |keys|);
      assert forall q :: 0 <= q < |nearN| ==> nearN[q] in nearN;
      if InSome(g, n - 1) then g else g + [nearN]
  }

  /** Every line is in some group. */
  lemma {:induction false} GroupsCover(keys: seq<real>, tol: real, n: nat)
    requires 0.0 <= tol && n <= |keys|
    ensures forall i :: 0 <= i < n ==> InSome(Groups(keys, tol, n), i)
  {
    if n > 0 {
      GroupsCover(keys, tol, n - 1);
      var g := Groups(keys, tol, n - 1);
      if !InSome(g, n - 1) {
        var nearN := Near(keys, n - 1, tol, |keys|);
        forall i | 0 <= i < n ensures InSome(g + [nearN], i) {
          InSomeAppend(g, nearN, i);
        }
      }
    }
  }

  /** A line is in some group of g + [s] exactly when it is in some group of g or in s. */
  lemma InSomeAppend(g: seq<seq<nat>>, s: seq<nat>, i: nat)
    ensures InSome(g + [s], i) <==> InSome(g, i) || i in s
  {
    var g2 := g + [s];
    assert g2[|g|] == s;
    assert forall m :: 0 <= m < |g| ==> g2[m] == g[m];
  }

  /** `grp` is the tol-neighbourhood of one of the first n lines. */
  ghost predicate OpenedBy(keys: seq<real>, tol: real, n: nat, grp: seq<nat>)
    requires n <= |keys|
  {
    exists k :: 0 <= k < n && grp == Near(keys, k, tol, |keys|)
  }

  /** Every group is the tol-neighbourhood of one of the lines. */
  lemma {:induction false} GroupsOpened(keys: seq<real>, tol: real, n: nat)
    requires n <= |keys|
    ensures forall m :: 0 <= m < |Groups(keys, tol, n)| ==> OpenedBy(keys, tol, n, Groups(keys, tol, n)[m])
  {
    if n > 0 {
      GroupsOpened(keys, tol, n - 1);
      var g := Groups(keys, tol, n - 1);
      var g2 := Groups(keys, tol, n);
      forall m | 0 <= m < |g2| ensures OpenedBy(keys, tol, n, g2[m]) {
        if m < |g| {
          assert OpenedBy(keys, tol, n - 1, g[m]);
          var k :| 0 <= k < n - 1 && g[m] == Near(keys, k, tol, |keys|);
          assert g2[m] == g[m];
        } else {
          assert g2[m] == Near(keys, n - 1, tol, |keys|);
        }
      }
    }
  }

  /** The grouping loop of `getCombinedHorizontalLine`/`getCombinedVerticalLine`. */
  method GroupLines(keys: seq<real>, tol: real) returns (groups: seq<seq<nat>>)
    requires 0.0 <= tol
    ensures groups == Groups(keys, tol, |keys|)
  {
    groups := [];
    var k := 0;
    while k < |keys|
      invariant 0 <= k <= |keys|
      invariant groups == Groups(keys, tol, k)
    {
      groups := GroupStep(keys, tol, k, groups);
      k := k + 1;
    }
  }

  /** The body of the grouping loop for line k. */
  method GroupStep(keys: seq<real>, tol: real, k: nat, groups: seq<seq<nat>>) returns (next: seq<seq<nat>>)
    requires 0.0 <= tol && k < |keys|
    requires groups == Groups(keys, tol, k)
    ensures next == Groups(keys, tol, k + 1)
  {
    var nearK := Near(keys, k, tol, |keys|);
    GroupsNext(keys, tol, k);
    next := groups;
    if |next| == 0 {
      next := [nearK];
    }
    var flag := AnyGroupHas(next, k);
    if !flag {
      next := next + [nearK];
    }
  }

  /** One step of the grouping, and the first group opened by the first line. */
  lemma GroupsNext(keys: seq<real>, tol: real, k: nat)
    requires 0.0 <= tol && k < |keys|
    ensures var g, nearK := Groups(keys, tol, k), Near(keys, k, tol, |keys|);
      Groups(keys, tol, k + 1) == (if InSome(g, k) then g else g + [nearK]) &&
      (|g| == 0 ==> InSome([nearK], k) && g + [nearK] == [nearK])
  {
    var nearK := Near(keys, k, tol, |keys|);
    assert k in nearK;
    assert [nearK][0] == nearK;
  }

  /** The inner search: is line k in one of the groups already? */
  method AnyGroupHas(groups: seq<seq<nat>>, k: nat) returns (flag: bool)
    ensures flag == InSome(groups, k)
  {
    var m := 0;
    while m < |groups|
      invariant 0 <= m <= |groups|
      invariant forall q :: 0 <= q < m ==> k !in groups[q]
    {
      if k in groups[m] {
        return true;
      }
      m := m + 1;
    }
    return false;
  }

  // ---------------------------------------------------------------- merging

  /** A merged segment `[low end, high end]` along the merge axis. */
  datatype Seg = Seg(lo: Point, hi: Point)

  /** The merge axis coordinate: x for horizontal lines, y for vertical ones. */
  function Coord(p: Point, vertical: bool): real
  {
    if vertical then p.y else p.x
  }

  /** `sorted([start, end], key=coord)`, stable. */
  function Ends(l: Line, vertical: bool): Seg
  {
    if Coord(l.end, vertical) < Coord(l.start, vertical) then Seg(l.end, l.start) else Seg(l.start, l.end)
  }

  /** One end of `p` lies within `b` along the axis. */
  predicate Overlaps(b: Seg, p: Seg, vertical: bool)
  {
    var lo, hi := Coord(b.lo, vertical), Coord(b.hi, vertical);
    (lo <= Coord(p.lo, vertical) <= hi) || (lo <= Coord(p.hi, vertical) <= hi)
  }

  /** `min`/`max` by the axis coordinate; on a tie the base end is kept. */
  function Absorb(b: Seg, p: Seg, vertical: bool): Seg
  {
    Seg(if Coord(p.lo, vertical) < Coord(b.lo, vertical) then p.lo else b.lo,
        if Coord(p.hi, vertical) > Coord(b.hi, vertical) then p.hi else b.hi)
  }

  /** The segment spans the line's extent along the axis. */
  predicate CoversLine(b: Seg, l: Line, vertical: bool)
  {
    Coord(b.lo, vertical) <= Min(Coord(l.start, vertical), Coord(l.end, vertical))
    && Max(Coord(l.start, vertical), Coord(l.end, vertical)) <= Coord(b.hi, vertical)
  }

  datatype MergeState = MergeState(judged: set<nat>, out: seq<Seg>)

  ghost predicate ValidGroups(lines: seq<Line>, groups: seq<seq<nat>>)
  {
    forall m, q :: 0 <= m < |groups| && 0 <= q < |groups[m]| ==> groups[m][q] < |lines|
  }

  /**
   * Where the scan for base i starts: `list[i:]` for horizontal lines, but
   * `list[1:]` for vertical ones.
   */
  function ScanStart(i: nat, vertical: bool): nat
  {
    if vertical then 1 else i
  }

  /** The inner scan over group[from..k], widening `bp` by every line that overlaps it. */
  function Scan(lines: seq<Line>, group: seq<nat>, from: nat, k: nat, bp: Seg, judged: set<nat>, vertical: bool): (Seg, set<nat>)
    requires from <= k <= |group| && forall q :: 0 <= q < |group| ==> group[q] < |lines|
    decreases k
  {
    if k == from then (bp, judged)
    else
      var r := Scan(lines, group, from, k - 1, bp, judged, vertical);
      var p := Ends(lines[group[k - 1]], vertical);
      if Overlaps(r.0, p, vertical) then (Absorb(r.0, p, vertical), r.1 + {group[k - 1]}) else r
  }

  /** One base of a group: skipped when already judged, otherwise merged and appended. */
  function BaseStep(lines: seq<Line>, group: seq<nat>, i: nat, st: MergeState, vertical: bool): MergeState
    requires i < |group| && forall q :: 0 <= q < |group| ==> group[q] < |lines|
  {
    var b := group[i];
    if b in st.judged then st
    else
      var r := Scan(lines, group, ScanStart(i, vertical), |group|, Ends(lines[b], vertical), st.judged + {b}, vertical);
      MergeState(r.1, st.out + [r.0])
  }

  /** Bases 0..n-1 of one group. */
  function GroupScan(lines: seq<Line>, group: seq<nat>, n: nat, st: MergeState, vertical: bool): MergeState
    requires n <= |group| && forall q :: 0 <= q < |group| ==> group[q] < |lines|
  {
    if n == 0 then st else BaseStep(lines, group, n - 1, GroupScan(lines, group, n - 1, st, vertical), vertical)
  }

  /** Groups 0..n-1, from an empty judge set. */
  function MergeAll(lines: seq<Line>, groups: seq<seq<nat>>, n: nat, vertical: bool): MergeState
    requires n <= |groups| && ValidGroups(lines, groups)
  {
    if n == 0 then MergeState({}, [])
    else
      var g := groups[n - 1];
      GroupScan(lines, g, |g|, MergeAll(lines, groups, n - 1, vertical), vertical)
  }

  /**
   * The merge invariant: judged lines are lines, there are no more segments
   * than judged lines, and every judged line is spanned by some segment.
   */
  ghost predicate MergeInv(lines: seq<Line>, st: MergeState, vertical: bool)
  {
    (forall j :: j in st.judged ==> j < |lines|)
    && |st.out| <= |st.judged|
    && forall j :: j in st.judged && j < |lines| ==> Covered(st.out, lines[j], vertical)
  }

  /** Some segment spans the line. */
  ghost predicate Covered(out: seq<Seg>, l: Line, vertical: bool)
  {
    exists o :: 0 <= o < |out| && CoversLine(out[o], l, vertical)
  }

  lemma AbsorbWidens(b: Seg, p: Seg, l: Line, vertical: bool)
    requires CoversLine(b, l, vertical)
    ensures CoversLine(Absorb(b, p, vertical), l, vertical)
  {
  }

  /** The scan only widens the segment and only adds lines it then spans. */
  lemma {:induction false} ScanProps(lines: seq<Line>, group: seq<nat>, from: nat, k: nat, bp: Seg, judged: set<nat>, vertical: bool)
    requires from <= k <= |group| && forall q :: 0 <= q < |group| ==> group[q] < |lines|
    ensures var r := Scan(lines, group, from, k, bp, judged, vertical);
      judged <= r.1
      && (forall j :: j in r.1 - judged ==> j < |lines| && CoversLine(r.0, lines[j], vertical))
      && (forall l :: CoversLine(bp, l, vertical) ==> CoversLine(r.0, l, vertical))
  {
    if k > from {
      ScanProps(lines, group, from, k - 1, bp, judged, vertical);
      var r := Scan(lines, group, from, k - 1, bp, judged, vertical);
      var p := Ends(lines[group[k - 1]], vertical);
      if Overlaps(r.0, p, vertical) {
        var b2 := Absorb(r.0, p, vertical);
        var x := group[k - 1];
        forall l | CoversLine(r.0, l, vertical) ensures CoversLine(b2, l, vertical) {
          AbsorbWidens(r.0, p, l, vertical);
        }
        forall j | j in (r.1 + {x}) - judged ensures j < |lines| && CoversLine(b2, lines[j], vertical) {
          if j != x {
            assert j in r.1 - judged;
            AbsorbWidens(r.0, p, lines[j], vertical);
          }
        }
      }
    }
  }

  lemma BaseStepInv(lines: seq<Line>, group: seq<nat>, i: nat, st: MergeState, vertical: bool)
    requires i < |group| && forall q :: 0 <= q < |group| ==> group[q] < |lines|
    requires MergeInv(lines, st, vertical)
    ensures var st2 := BaseStep(lines, group, i, st, vertical);
      MergeInv(lines, st2, vertical) && st.judged <= st2.judged && group[i] in st2.judged
  {
    var b := group[i];
    if b !in st.judged {
      var bp := Ends(lines[b], vertical);
      var r := Scan(lines, group, ScanStart(i, vertical), |group|, bp, st.judged + {b}, vertical);
      ScanProps(lines, group, ScanStart(i, vertical), |group|, bp, st.judged + {b}, vertical);
      assert CoversLine(bp, lines[b], vertical);
      var st2 := MergeState(r.1, st.out + [r.0]);
      assert |st.judged + {b}| == |st.judged| + 1;
      SubsetSize(st.judged + {b}, r.1);
      forall j | j in r.1 ensures j < |lines| {
        if j !in st.judged && j != b {
          assert j in r.1 - (st.judged + {b});
        }
      }
      forall j | j in st2.judged && j < |lines|
        ensures Covered(st2.out, lines[j], vertical)
      {
        if j in st.judged {
          assert Covered(st.out, lines[j], vertical);
          var o :| 0 <= o < |st.out| && CoversLine(st.out[o], lines[j], vertical);
          assert st2.out[o] == st.out[o];
        } else if j == b {
          assert CoversLine(st2.out[|st.out|], lines[j], vertical);
        } else {
          assert j in r.1 - (st.judged + {b});
          assert CoversLine(st2.out[|st.out|], lines[j], vertical);
        }
      }
    }
  }

  lemma {:induction false} GroupScanInv(lines: seq<Line>, group: seq<nat>, n: nat, st: MergeState, vertical: bool)
    requires n <= |group| && forall q :: 0 <= q < |group| ==> group[q] < |lines|
    requires MergeInv(lines, st, vertical)
    ensures MergeInv(lines, GroupScan(lines, group, n, st, vertical), vertical)
  {
    if n > 0 {
      var prev := GroupScan(lines, group, n - 1, st, vertical);
      GroupScanInv(lines, group, n - 1, st, vertical);
      assert MergeInv(lines, BaseStep(lines, group, n - 1, prev, vertical), vertical) by {
        BaseStepInv(lines, group, n - 1, prev, vertical);
      }
      assert GroupScan(lines, group, n, st, vertical) == BaseStep(lines, group, n - 1, prev, vertical);
    }
  }

  /** A base step keeps what was judged and judges its base. */
  lemma BaseStepJudges(lines: seq<Line>, group: seq<nat>, i: nat, st: MergeState, vertical: bool)
    requires i < |group| && forall q :: 0 <= q < |group| ==> group[q] < |lines|
    ensures var st2 := BaseStep(lines, group, i, st, vertical);
      st.judged <= st2.judged && group[i] in st2.judged
  {
    var b := group[i];
    if b !in st.judged {
      ScanProps(lines, group, ScanStart(i, vertical), |group|, Ends(lines[b], vertical), st.judged + {b}, vertical);
    }
  }

  /** Every base scanned is judged afterwards. */
  lemma {:induction false} GroupScanJudges(lines: seq<Line>, group: seq<nat>, n: nat, st: MergeState, vertical: bool)
    requires n <= |group| && forall q :: 0 <= q < |group| ==> group[q] < |lines|
    ensures var st2 := GroupScan(lines, group, n, st, vertical);
      st.judged <= st2.judged && forall q :: 0 <= q < n ==> group[q] in st2.judged
  {
    if n > 0 {
      var prev := GroupScan(lines, group, n - 1, st, vertical);
      GroupScanJudges(lines, group, n - 1, st, vertical);
      BaseStepJudges(lines, group, n - 1, prev, vertical);
      var st2 := BaseStep(lines, group, n - 1, prev, vertical);
      SubsetTrans(st.judged, prev.judged, st2.judged);
      forall q | 0 <= q < n ensures group[q] in st2.judged {
        if q < n - 1 {
          assert group[q] in prev.judged;
        }
      }
    }
  }

  lemma {:induction false} MergeAllInv(lines: seq<Line>, groups: seq<seq<nat>>, n: nat, vertical: bool)
    requires n <= |groups| && ValidGroups(lines, groups)
    ensures var st := MergeAll(lines, groups, n, vertical);
      MergeInv(lines, st, vertical)
      && forall m, q :: 0 <= m < n && 0 <= q < |groups[m]| ==> groups[m][q] in st.judged
  {
    if n > 0 {
      var prev := MergeAll(lines, groups, n - 1, vertical);
      MergeAllInv(lines, groups, n - 1, vertical);
      var g := groups[n - 1];
      GroupScanInv(lines, g, |g|, prev, vertical);
      GroupScanJudges(lines, g, |g|, prev, vertical);
    }
  }

  /**
   * The merge result: no more segments than lines, and every line that is in
   * some group has its extent along the axis spanned by some segment.
   */
  lemma MergeSound(lines: seq<Line>, groups: seq<seq<nat>>, vertical: bool)
    requires ValidGroups(lines, groups)
    ensures |MergeAll(lines, groups, |groups|, vertical).out| <= |lines|
    ensures forall j :: 0 <= j < |lines| && InSome(groups, j) ==>
      exists o :: 0 <= o < |MergeAll(lines, groups, |groups|, vertical).out|
        && CoversLine(MergeAll(lines, groups, |groups|, vertical).out[o], lines[j], vertical)
  {
    var st := MergeAll(lines, groups, |groups|, vertical);
    MergeAllInv(lines, groups, |groups|, vertical);
    BoundedSetSize(st.judged, |lines|);
    forall j | 0 <= j < |lines| && InSome(groups, j) ensures j in st.judged {
      var m :| 0 <= m < |groups| && j in groups[m];
      var q :| 0 <= q < |groups[m]| && groups[m][q] == j;
    }
  }

  /** The merge loops of `getCombinedHorizontalLine`/`getCombinedVerticalLine`. */
  method MergeGroups(lines: seq<Line>, groups: seq<seq<nat>>, vertical: bool) returns (out: seq<Seg>)
    requires ValidGroups(lines, groups)
    ensures out == MergeAll(lines, groups, |groups|, vertical).out
  {
    var judged: set<nat> := {};
    out := [];
    var g := 0;
    while g < |groups|
      invariant 0 <= g <= |groups|
      invariant MergeState(judged, out) == MergeAll(lines, groups, g, vertical)
    {
      var group := groups[g];
      ghost var st0 := MergeState(judged, out);
      var i := 0;
      while i < |group|
        invariant 0 <= i <= |group|
        invariant MergeState(judged, out) == GroupScan(lines, group, i, st0, vertical)
      {
        var baseLine := group[i];
        if baseLine !in judged {
          judged := judged + {baseLine};
          var basePosition := Ends(lines[baseLine], vertical);
          var from := ScanStart(i, vertical);
          ghost var j0 := judged;
          ghost var b0 := basePosition;
          var k := from;
          while k < |group|
            invariant from <= k <= |group|
            invariant (basePosition, judged) == Scan(lines, group, from, k, b0, j0, vertical)
          {
            var position := Ends(lines[group[k]], vertical);
            if Overlaps(basePosition, position, vertical) {
              basePosition := Absorb(basePosition, position, vertical);
              judged := judged + {group[k]};
            }
            k := k + 1;
          }
          out := out + [basePosition];
        }
        i := i + 1;
      }
      g := g + 1;
    }
  }

  /** A merged segment runs from its low end to its high end along the axis. */
  predicate SegOrdered(b: Seg, vertical: bool)
  {
    Coord(b.lo, vertical) <= Coord(b.hi, vertical)
  }

  ghost predicate AllOrdered(out: seq<Seg>, vertical: bool)
  {
    forall o :: 0 <= o < |out| ==> SegOrdered(out[o], vertical)
  }

  lemma {:induction false} ScanOrdered(lines: seq<Line>, group: seq<nat>, from: nat, k: nat, bp: Seg, judged: set<nat>, vertical: bool)
    requires from <= k <= |group| && forall q :: 0 <= q < |group| ==> group[q] < |lines|
    requires SegOrdered(bp, vertical)
    ensures SegOrdered(Scan(lines, group, from, k, bp, judged, vertical).0, vertical)
  {
    if k > from {
      ScanOrdered(lines, group, from, k - 1, bp, judged, vertical);
    }
  }

  lemma {:induction false} GroupScanOrdered(lines: seq<Line>, group: seq<nat>, n: nat, st: MergeState, vertical: bool)
    requires n <= |group| && forall q :: 0 <= q < |group| ==> group[q] < |lines|
    requires AllOrdered(st.out, vertical)
    ensures AllOrdered(GroupScan(lines, group, n, st, vertical).out, vertical)
  {
    if n > 0 {
      GroupScanOrdered(lines, group, n - 1, st, vertical);
      var prev := GroupScan(lines, group, n - 1, st, vertical);
      var b := group[n - 1];
      if b !in prev.judged {
        var r := Scan(lines, group, ScanStart(n - 1, vertical), |group|, Ends(lines[b], vertical), prev.judged + {b}, vertical);
        ScanOrdered(lines, group, ScanStart(n - 1, vertical), |group|, Ends(lines[b], vertical), prev.judged + {b}, vertical);
        assert GroupScan(lines, group, n, st, vertical).out == prev.out + [r.0];
      }
    }
  }

  /** Every merged segment runs from its low end to its high end along the axis. */
  lemma {:induction false} MergeOrdered(lines: seq<Line>, groups: seq<seq<nat>>, n: nat, vertical: bool)
    requires n <= |groups| && ValidGroups(lines, groups)
    ensures AllOrdered(MergeAll(lines, groups, n, vertical).out, vertical)
  {
    if n > 0 {
      MergeOrdered(lines, groups, n - 1, vertical);
      var g := groups[n - 1];
      GroupScanOrdered(lines, g, |g|, MergeAll(lines, groups, n - 1, vertical), vertical);
    }
  }

  // ------------------------------------------------------------- combining

  /** The grouping key of each line: start.y for horizontal lines, start.x for vertical ones. */
  function StartKeys(ls: seq<Line>, vertical: bool): (r: seq<real>)
    ensures |r| == |ls|
    ensures forall i :: 0 <= i < |ls| ==> r[i] == (if vertical then ls[i].start.x else ls[i].start.y)
  {
    if |ls| == 0 then []
    else [if vertical then ls[0].start.x else ls[0].start.y] + StartKeys(ls[1..], vertical)
  }

  /** `max(lines, key=magnitude)`: a line of greatest length (the first of equal ones). */
  function LongestLine(lib: Lib, ls: seq<Line>): (r: Line)
    requires |ls| > 0
    ensures r in ls
    ensures forall l :: l in ls ==> Mag(lib, Direction(l)) <= Mag(lib, Direction(r))
  {
    if |ls| == 1 then ls[0]
    else
      var m := LongestLine(lib, ls[..|ls| - 1]);
      assert ls == ls[..|ls| - 1] + [ls[|ls| - 1]];
      if Mag(lib, Direction(ls[|ls| - 1])) > Mag(lib, Direction(m)) then ls[|ls| - 1] else m
  }

  /** The vertical grouping tolerance: the longest vertical's length times cos(89 degrees). */
  function VerticalTol(lib: Lib, ls: seq<Line>): real
    requires |ls| > 0
  {
    Mag(lib, Direction(LongestLine(lib, ls))) * lib.cos89
  }

  lemma VerticalTolNonNegative(lib: Lib, ls: seq<Line>)
    requires |ls| > 0 && SqrtSound(lib) && 0.0 <= lib.cos89
    ensures 0.0 <= VerticalTol(lib, ls)
  {
    var v := Direction(LongestLine(lib, ls));
    assert 0.0 <= NormSq(v);
    assert 0.0 <= Mag(lib, v);
  }

  /** The grouping tolerance: 1 for horizontal lines. */
  function AxisTol(lib: Lib, ls: seq<Line>, vertical: bool): real
  {
    if vertical && |ls| > 0 then VerticalTol(lib, ls) else 1.0
  }

  /** `msp.add_line(position[0], position[1])` for every merged segment. */
  function SegLines(out: seq<Seg>): (r: seq<Line>)
    ensures |r| == |out|
    ensures forall o :: 0 <= o < |out| ==> r[o] == Line(out[o].lo, out[o].hi)
  {
    if |out| == 0 then [] else [Line(out[0].lo, out[0].hi)] + SegLines(out[1..])
  }

  /** The combined lines of one orientation: grouped by start coordinate, then merged. */
  function MergedAxis(lib: Lib, ls: seq<Line>, vertical: bool): seq<Line>
  {
    var groups := Groups(StartKeys(ls, vertical), AxisTol(lib, ls, vertical), |ls|);
    SegLines(MergeAll(ls, groups, |groups|, vertical).out)
  }

  /** `CombinedLine(doc, layer).combinedLines` for the layer's LINE entities `ls`. */
  function Combined(lib: Lib, ls: seq<Line>): seq<Line>
  {
    MergedAxis(lib, Horizontals(lib, ls), false) + MergedAxis(lib, Verticals(lib, ls), true)
  }

  /**
   * One orientation's merge: it yields no more lines than it is given, each
   * runs from its low to its high end along the axis, and every input line's
   * extent along the axis lies within one of them.
   */
  lemma MergedAxisSound(lib: Lib, ls: seq<Line>, vertical: bool)
    requires 0.0 <= AxisTol(lib, ls, vertical)
    ensures |MergedAxis(lib, ls, vertical)| <= |ls|
    ensures forall o :: 0 <= o < |MergedAxis(lib, ls, vertical)| ==>
      Coord(MergedAxis(lib, ls, vertical)[o].start, vertical) <= Coord(MergedAxis(lib, ls, vertical)[o].end, vertical)
    ensures forall l :: l in ls ==> exists o :: (0 <= o < |MergedAxis(lib, ls, vertical)|
      && CoversLine(Seg(MergedAxis(lib, ls, vertical)[o].start, MergedAxis(lib, ls, vertical)[o].end), l, vertical))
  {
    var keys := StartKeys(ls, vertical);
    var tol := AxisTol(lib, ls, vertical);
    var groups := Groups(keys, tol, |ls|);
    var out := MergeAll(ls, groups, |groups|, vertical).out;
    var r := SegLines(out);
    assert r == MergedAxis(lib, ls, vertical);
    MergeSound(ls, groups, vertical);
    MergeOrdered(ls, groups, |groups|, vertical);
    GroupsCover(keys, tol, |ls|);
    forall l | l in ls ensures exists o :: 0 <= o < |r| && CoversLine(Seg(r[o].start, r[o].end), l, vertical) {
      var j :| 0 <= j < |ls| && ls[j] == l;
      assert InSome(groups, j);
      var o :| 0 <= o < |out| && CoversLine(out[o], ls[j], vertical);
      assert Seg(r[o].start, r[o].end) == out[o];
    }
    forall o | 0 <= o < |r| ensures Coord(r[o].start, vertical) <= Coord(r[o].end, vertical) {
      assert SegOrdered(out[o], vertical);
    }
  }

  /**
   * The combined lines of a layer: at most one per horizontal or vertical
   * line, and every horizontal (vertical) LINE's x- (y-) extent lies within
   * some combined line running left to right (bottom to top).
   */
  lemma CombinedSound(lib: Lib, ls: seq<Line>)
    requires SqrtSound(lib) && 0.0 <= lib.cos89
    ensures |Combined(lib, ls)| <= |Horizontals(lib, ls)| + |Verticals(lib, ls)|
    ensures forall l :: l in ls && IsHorizontal(lib, l) ==> exists c :: (c in Combined(lib, ls)
      && c.start.x <= Min(l.start.x, l.end.x) && Max(l.start.x, l.end.x) <= c.end.x)
    ensures forall l :: l in ls && IsVertical(lib, l) ==> exists c :: (c in Combined(lib, ls)
      && c.start.y <= Min(l.start.y, l.end.y) && Max(l.start.y, l.end.y) <= c.end.y)
  {
    var h, v := Horizontals(lib, ls), Verticals(lib, ls);
    MergedAxisSound(lib, h, false);
    if |v| > 0 {
      VerticalTolNonNegative(lib, v);
    }
    MergedAxisSound(lib, v, true);
    CombinedCoversHorizontals(lib, ls);
    CombinedCoversVerticals(lib, ls);
  }

  lemma CombinedCoversHorizontals(lib: Lib, ls: seq<Line>)
    ensures forall l :: l in ls && IsHorizontal(lib, l) ==> exists c :: (c in Combined(lib, ls)
      && c.start.x <= Min(l.start.x, l.end.x) && Max(l.start.x, l.end.x) <= c.end.x)
  {
    var h, v := Horizontals(lib, ls), Verticals(lib, ls);
    var mh, mv := MergedAxis(lib, h, false), MergedAxis(lib, v, true);
    MergedAxisSound(lib, h, false);
    forall l | l in ls && IsHorizontal(lib, l) ensures exists c :: (c in Combined(lib, ls)
      && c.start.x <= Min(l.start.x, l.end.x) && Max(l.start.x, l.end.x) <= c.end.x)
    {
      var o :| 0 <= o < |mh| && CoversLine(Seg(mh[o].start, mh[o].end), l, false);
      assert (mh + mv)[o] == mh[o];
    }
  }

  lemma CombinedCoversVerticals(lib: Lib, ls: seq<Line>)
    requires SqrtSound(lib) && 0.0 <= lib.cos89
    ensures forall l :: l in ls && IsVertical(lib, l) ==> exists c :: (c in Combined(lib, ls)
      && c.start.y <= Min(l.start.y, l.end.y) && Max(l.start.y, l.end.y) <= c.end.y)
  {
    var h, v := Horizontals(lib, ls), Verticals(lib, ls);
    var mh, mv := MergedAxis(lib, h, false), MergedAxis(lib, v, true);
    if |v| > 0 {
      VerticalTolNonNegative(lib, v);
    }
    MergedAxisSound(lib, v, true);
    forall l | l in ls && IsVertical(lib, l) ensures exists c :: (c in Combined(lib, ls)
      && c.start.y <= Min(l.start.y, l.end.y) && Max(l.start.y, l.end.y) <= c.end.y)
    {
      var o :| 0 <= o < |mv| && CoversLine(Seg(mv[o].start, mv[o].end), l, true);
      assert (mh + mv)[|mh| + o] == mv[o];
    }
  }

  /** The merged lines of one layer (`CombinedLine`). */
  class CombinedLine {
    var combinedLines: seq<Line>

    /** Combines the LINE entities of layer `layer` among the modelspace entities `es`. */
    constructor (lib: Lib, es: seq<Entity>, layer: string)
      requires SqrtSound(lib) && 0.0 <= lib.cos89
      ensures combinedLines == Combined(lib, LinesOf(OnLayer(es, layer)))
    {
      combinedLines := [];
      new;
      GetCombinedLines(lib, LinesOf(OnLayer(es, layer)));
    }

    method GetCombinedLines(lib: Lib, linesInLay: seq<Line>)
      requires SqrtSound(lib) && 0.0 <= lib.cos89
      modifies this
      ensures combinedLines == old(combinedLines) + Combined(lib, linesInLay)
    {
      if |linesInLay| == 0 {
        assert Combined(lib, linesInLay) == [] by {
          MergedAxisEmpty(lib, false);
          MergedAxisEmpty(lib, true);
        }
        assert combinedLines + [] == combinedLines;
        return;
      }
      var horizontal, vertical := Classify(lib, linesInLay);
      ghost var c0 := combinedLines;
      assert c0 == old(combinedLines);
      if |horizontal| != 0 {
        GetCombinedAxisLine(lib, horizontal, false);
      } else {
        MergedAxisEmpty(lib, false);
      }
      ghost var c1 := combinedLines;
      assert c1 == c0 + MergedAxis(lib, horizontal, false);
      if |vertical| != 0 {
        GetCombinedAxisLine(lib, vertical, true);
      } else {
        MergedAxisEmpty(lib, true);
      }
      ghost var mh, mv := MergedAxis(lib, horizontal, false), MergedAxis(lib, vertical, true);
      assert combinedLines == c1 + mv;
      assert Combined(lib, linesInLay) == mh + mv;
      ConcatAssoc(c0, mh, mv);
    }

    /**
     * `getCombinedHorizontalLine` (vertical == false) and
     * `getCombinedVerticalLine` (vertical == true): group, merge and append.
     */
    method GetCombinedAxisLine(lib: Lib, axisLines: seq<Line>, vertical: bool)
      requires |axisLines| > 0 && SqrtSound(lib) && 0.0 <= lib.cos89
      modifies this
      ensures combinedLines == old(combinedLines) + MergedAxis(lib, axisLines, vertical)
    {
      var tol := 1.0;
      if vertical {
        var maxLengthLine := LongestLine(lib, axisLines);
        tol := Mag(lib, Direction(maxLengthLine)) * lib.cos89;
        VerticalTolNonNegative(lib, axisLines);
      }
      assert tol == AxisTol(lib, axisLines, vertical);
      var groups := GroupLines(StartKeys(axisLines, vertical), tol);
      var positions := MergeGroups(axisLines, groups, vertical);
      AddLines(positions);
    }

    /** Appends one line per merged segment, in order. */
    method AddLines(positions: seq<Seg>)
      modifies this
      ensures combinedLines == old(combinedLines) + SegLines(positions)
    {
      var p := 0;
      while p < |positions|
        invariant 0 <= p <= |positions|
        invariant combinedLines == old(combinedLines) + SegLines(positions[..p])
      {
        assert positions[..p + 1] == positions[..p] + [positions[p]];
        SegLinesAppend(positions[..p], positions[p]);
        combinedLines := combinedLines + [Line(positions[p].lo, positions[p].hi)];
        p := p + 1;
      }
      assert positions[..p] == positions;
    }
  }

  lemma MergedAxisEmpty(lib: Lib, vertical: bool)
    ensures MergedAxis(lib, [], vertical) == []
  {
    assert Groups(StartKeys([], vertical), AxisTol(lib, [], vertical), 0) == [];
  }

  lemma SegLinesAppend(out: seq<Seg>, b: Seg)
    ensures SegLines(out + [b]) == SegLines(out) + [Line(b.lo, b.hi)]
  {
    var x, y := SegLines(out + [b]), SegLines(out) + [Line(b.lo, b.hi)];
    assert |x| == |y|;
    assert forall o :: 0 <= o < |x| ==> x[o] == y[o];
  }

  // ------------------------------------------------------------- corners

  /**
   * `calPoint`: the intersection of the lines through A and B, as
   * `A.start + t * (A.end - A.start)`.  None where the source fails: for
   * vectors `is_parallel` accepts the result variable is never bound, and a
   * zero cross product divides by zero.
   */
  function CalPoint(lib: Lib, a: Line, b: Line): Option<Point>
  {
    var va, vb := Direction(a), Direction(b);
    var vba := Sub(a.start, b.start);
    var bxa := Cross(vb, va);
    if lib.isParallel(va, vb, 0.0001) || bxa == 0.0 then None
    else
      var ta := Cross(vba, vb) / bxa;
      Some(Add(Scale(ta, va), a.start))
  }

  /** A computed corner lies on both supporting lines: both cross products vanish. */
  lemma CalPointOnBoth(lib: Lib, a: Line, b: Line)
    requires CalPoint(lib, a, b).Some?
    ensures Cross(Sub(CalPoint(lib, a, b).value, a.start), Direction(a)) == 0.0
    ensures Cross(Sub(CalPoint(lib, a, b).value, b.start), Direction(b)) == 0.0
  {
    var va, vb := Direction(a), Direction(b);
    var vba := Sub(a.start, b.start);
    var bxa := Cross(vb, va);
    var ta := Cross(vba, vb) / bxa;
    var p := Add(Scale(ta, va), a.start);
    assert Sub(p, a.start) == Scale(ta, va);
    assert Cross(Scale(ta, va), va) == ta * (va.x * va.y - va.y * va.x);
    assert Sub(p, b.start) == Add(Scale(ta, va), vba);
    assert Cross(Add(Scale(ta, va), vba), vb) == ta * Cross(va, vb) + Cross(vba, vb);
    assert Cross(va, vb) == -bxa;
    assert ta * bxa == Cross(vba, vb);
  }

  /** With a sound `is_parallel`, the corner fails exactly for vectors it calls parallel. */
  lemma CalPointDefined(lib: Lib, a: Line, b: Line)
    requires ParallelSound(lib)
    ensures CalPoint(lib, a, b).None? <==> lib.isParallel(Direction(a), Direction(b), 0.0001)
  {
    var va, vb := Direction(a), Direction(b);
    if Cross(vb, va) == 0.0 {
      assert Cross(va, vb) == 0.0;
      assert lib.isParallel(va, vb, 0.0001);
    }
  }

  // ----------------------------------------------------------- rectangle

  function ByX(p: Point): Key { Key(p.x, 0.0) }
  function ByYDesc(p: Point): Key { Key(-p.y, 0.0) }
  function ByStartX(l: Line): Key { Key(l.start.x, 0.0) }
  function ByStartXDesc(l: Line): Key { Key(-l.start.x, 0.0) }
  function ByStartYDesc(l: Line): Key { Key(-l.start.y, 0.0) }

  /** `sorted([a, b], key=...)`: swapped exactly when the second key is strictly smaller. */
  function Sort2<T>(a: T, b: T, key: T -> Key): seq<T>
  {
    if KeyLt(key(b), key(a)) then [b, a] else [a, b]
  }

  /** The two-element sort is the general stable sort on two elements. */
  lemma Sort2IsSortBy<T>(a: T, b: T, key: T -> Key)
    ensures Sort2(a, b, key) == SortBy([a, b], key)
  {
    assert [a, b][1..] == [b];
    assert [b][1..] == [];
  }

  /** `positionAboutX`: the endpoints, left one first. */
  function PositionAboutX(l: Line): seq<Point>
  {
    Sort2(l.start, l.end, ByX)
  }

  /** `positionAboutY`: the endpoints, upper one first. */
  function PositionAboutY(l: Line): seq<Point>
  {
    Sort2(l.start, l.end, ByYDesc)
  }

  /** `isSurrounding`: |B - A| <= |line| * 0.01, compared in squares. */
  predicate IsSurrounding(l: Line, a: Point, b: Point)
  {
    DistSq(a, b) <= 0.0001 * NormSq(Direction(l))
  }

  /**
   * `isCursoryFrame`: exactly two horizontals and two verticals, and each
   * horizontal (top first) has its left end near the left vertical's end at
   * the same height rank and its right end near the right vertical's.
   */
  predicate IsCursoryFrame(hs: seq<Line>, vs: seq<Line>)
  {
    |hs| == 2 && |vs| == 2
    && var hl, vl := Sort2(hs[0], hs[1], ByStartYDesc), Sort2(vs[0], vs[1], ByStartX);
    forall i :: 0 <= i < 2 ==>
      IsSurrounding(hl[i], PositionAboutX(hl[i])[0], PositionAboutY(vl[0])[i])
      && IsSurrounding(hl[i], PositionAboutX(hl[i])[1], PositionAboutY(vl[1])[i])
  }

  function LeftEnd(l: Line): Point { if l.end.x < l.start.x then l.end else l.start }
  function RightEnd(l: Line): Point { if l.end.x < l.start.x then l.start else l.end }
  function UpperEnd(l: Line): Point { if l.end.y > l.start.y then l.end else l.start }
  function LowerEnd(l: Line): Point { if l.end.y > l.start.y then l.start else l.end }

  /** The horizontal with the greater start y, the first on a tie; and the other one. */
  function TopOf(hs: seq<Line>): Line requires |hs| == 2 { if hs[1].start.y > hs[0].start.y then hs[1] else hs[0] }
  function BottomOf(hs: seq<Line>): Line requires |hs| == 2 { if hs[1].start.y > hs[0].start.y then hs[0] else hs[1] }
  /** The vertical with the smaller start x, the first on a tie; and the other one. */
  function LeftOf(vs: seq<Line>): Line requires |vs| == 2 { if vs[1].start.x < vs[0].start.x then vs[1] else vs[0] }
  function RightOf(vs: seq<Line>): Line requires |vs| == 2 { if vs[1].start.x < vs[0].start.x then vs[0] else vs[1] }

  /**
   * The rectangle test corner by corner: the top line's ends meet the upper
   * ends of the left and right lines, and the bottom line's ends their lower
   * ends, each within 1% of that horizontal's length.
   */
  lemma CursoryFrameCorners(hs: seq<Line>, vs: seq<Line>)
    requires |hs| == 2 && |vs| == 2
    ensures IsCursoryFrame(hs, vs) <==>
      IsSurrounding(TopOf(hs), LeftEnd(TopOf(hs)), UpperEnd(LeftOf(vs)))
      && IsSurrounding(TopOf(hs), RightEnd(TopOf(hs)), UpperEnd(RightOf(vs)))
      && IsSurrounding(BottomOf(hs), LeftEnd(BottomOf(hs)), LowerEnd(LeftOf(vs)))
      && IsSurrounding(BottomOf(hs), RightEnd(BottomOf(hs)), LowerEnd(RightOf(vs)))
  {
    var hl, vl := Sort2(hs[0], hs[1], ByStartYDesc), Sort2(vs[0], vs[1], ByStartX);
    assert hl == [TopOf(hs), BottomOf(hs)];
    assert vl == [LeftOf(vs), RightOf(vs)];
    assert PositionAboutX(hl[0]) == [LeftEnd(hl[0]), RightEnd(hl[0])];
    assert PositionAboutX(hl[1]) == [LeftEnd(hl[1]), RightEnd(hl[1])];
    assert PositionAboutY(vl[0]) == [UpperEnd(vl[0]), LowerEnd(vl[0])];
    assert PositionAboutY(vl[1]) == [UpperEnd(vl[1]), LowerEnd(vl[1])];
  }

  /** The sides of the axis-parallel rectangle with corners (x0, y0) and (x1, y1). */
  function RectHorizontals(x0: real, y0: real, x1: real, y1: real): seq<Line>
  {
    [Line(Point(x0, y0), Point(x1, y0)), Line(Point(x1, y1), Point(x0, y1))]
  }

  function RectVerticals(x0: real, y0: real, x1: real, y1: real): seq<Line>
  {
    [Line(Point(x1, y0), Point(x1, y1)), Line(Point(x0, y1), Point(x0, y0))]
  }

  lemma RectangleCorners(x0: real, y0: real, x1: real, y1: real)
    requires x0 < x1 && y0 < y1
    ensures var hs, vs := RectHorizontals(x0, y0, x1, y1), RectVerticals(x0, y0, x1, y1);
      IsSurrounding(TopOf(hs), LeftEnd(TopOf(hs)), UpperEnd(LeftOf(vs)))
      && IsSurrounding(TopOf(hs), RightEnd(TopOf(hs)), UpperEnd(RightOf(vs)))
      && IsSurrounding(BottomOf(hs), LeftEnd(BottomOf(hs)), LowerEnd(LeftOf(vs)))
      && IsSurrounding(BottomOf(hs), RightEnd(BottomOf(hs)), LowerEnd(RightOf(vs)))
  {
    var hs, vs := RectHorizontals(x0, y0, x1, y1), RectVerticals(x0, y0, x1, y1);
    assert TopOf(hs) == hs[1] && BottomOf(hs) == hs[0];
    assert LeftOf(vs) == vs[1] && RightOf(vs) == vs[0];
    assert UpperEnd(vs[1]) == Point(x0, y1) && UpperEnd(vs[0]) == Point(x1, y1);
    assert LowerEnd(vs[1]) == Point(x0, y0) && LowerEnd(vs[0]) == Point(x1, y0);
    assert LeftEnd(hs[1]) == Point(x0, y1) && RightEnd(hs[1]) == Point(x1, y1);
    assert LeftEnd(hs[0]) == Point(x0, y0) && RightEnd(hs[0]) == Point(x1, y0);
    SurroundingSelf(hs[1], Point(x0, y1));
    SurroundingSelf(hs[1], Point(x1, y1));
    SurroundingSelf(hs[0], Point(x0, y0));
    SurroundingSelf(hs[0], Point(x1, y0));
  }

  /** A point is always within tolerance of itself. */
  lemma SurroundingSelf(l: Line, p: Point)
    ensures IsSurrounding(l, p, p)
  {
    var v := Direction(l);
    var n := NormSq(v);
    assert 0.0 <= n by { assert 0.0 <= v.x * v.x && 0.0 <= v.y * v.y; }
    assert 0.0 <= 0.0001 * n;
    assert DistSq(p, p) == 0.0;
  }

  /** An axis-parallel rectangle whose sides meet exactly is a frame. */
  lemma ExactRectangleIsFrame(x0: real, y0: real, x1: real, y1: real)
    requires x0 < x1 && y0 < y1
    ensures IsCursoryFrame(RectHorizontals(x0, y0, x1, y1), RectVerticals(x0, y0, x1, y1))
  {
    RectangleCorners(x0, y0, x1, y1);
    CursoryFrameCorners(RectHorizontals(x0, y0, x1, y1), RectVerticals(x0, y0, x1, y1));
  }

  // --------------------------------------------------------------- pairs

  /** The pairs (i, j) for j = lo .. n-1. */
  function Row(i: nat, lo: nat, n: nat): seq<(nat, nat)>
    decreases n - lo
  {
    if lo >= n then [] else [(i, lo)] + Row(i, lo + 1, n)
  }

  /** The pairs (i, j) with from <= i < j < n, in the order of the two loops. */
  function PairsFrom(from: nat, n: nat): seq<(nat, nat)>
    decreases n - from
  {
    if from >= n then [] else Row(from, from + 1, n) + PairsFrom(from + 1, n)
  }

  /** `Combination2inN(n)` as a value. */
  function Pairs(n: nat): seq<(nat, nat)>
  {
    PairsFrom(0, n)
  }

  lemma {:induction false} RowMembers(i: nat, lo: nat, n: nat)
    ensures forall p :: p in Row(i, lo, n) <==> p.0 == i && lo <= p.1 < n
    ensures |Row(i, lo, n)| == if lo <= n then n - lo else 0
    decreases n - lo
  {
    if lo < n {
      RowMembers(i, lo + 1, n);
    }
  }

  lemma {:induction false} PairsFromMembers(from: nat, n: nat)
    ensures forall p :: p in PairsFrom(from, n) <==> from <= p.0 < p.1 < n
    decreases n - from
  {
    if from < n {
      PairsFromMembers(from + 1, n);
      RowMembers(from, from + 1, n);
    }
  }

  /** `Combination2inN(n)` holds exactly the pairs i < j < n. */
  lemma PairsMembers(n: nat)
    ensures forall p :: p in Pairs(n) <==> p.0 < p.1 < n
  {
    PairsFromMembers(0, n);
  }

  predicate PairLt(a: (nat, nat), b: (nat, nat))
  {
    a.0 < b.0 || (a.0 == b.0 && a.1 < b.1)
  }

  ghost predicate LexIncreasing(s: seq<(nat, nat)>)
  {
    forall a, b :: 0 <= a < b < |s| ==> PairLt(s[a], s[b])
  }

  lemma LexConcat(s: seq<(nat, nat)>, t: seq<(nat, nat)>)
    requires LexIncreasing(s) && LexIncreasing(t)
    requires forall x, y :: x in s && y in t ==> PairLt(x, y)
    ensures LexIncreasing(s + t)
  {
    forall a, b | 0 <= a < b < |s + t| ensures PairLt((s + t)[a], (s + t)[b]) {
      if b < |s| {
        assert (s + t)[a] == s[a] && (s + t)[b] == s[b];
      } else if a >= |s| {
        assert (s + t)[a] == t[a - |s|] && (s + t)[b] == t[b - |s|];
      } else {
        assert (s + t)[a] in s && (s + t)[b] in t;
      }
    }
  }

  lemma {:induction false} RowIncreasing(i: nat, lo: nat, n: nat)
    ensures LexIncreasing(Row(i, lo, n))
    decreases n - lo
  {
    if lo < n {
      RowIncreasing(i, lo + 1, n);
      RowMembers(i, lo + 1, n);
      LexConcat([(i, lo)], Row(i, lo + 1, n));
    }
  }

  lemma {:induction false} PairsFromIncreasing(from: nat, n: nat)
    ensures LexIncreasing(PairsFrom(from, n))
    decreases n - from
  {
    if from < n {
      PairsFromIncreasing(from + 1, n);
      RowIncreasing(from, from + 1, n);
      RowMembers(from, from + 1, n);
      PairsFromMembers(from + 1, n);
      LexConcat(Row(from, from + 1, n), PairsFrom(from + 1, n));
    }
  }

  /** The pairs come in strictly increasing lexicographic order (so without repeats). */
  lemma PairsIncreasing(n: nat)
    ensures LexIncreasing(Pairs(n))
  {
    PairsFromIncreasing(0, n);
  }

  lemma {:induction false} PairsFromCount(from: nat, n: nat)
    requires from <= n
    ensures 2 * |PairsFrom(from, n)| == (n - from) * (n - from - 1)
    decreases n - from
  {
    if from < n {
      PairsFromCount(from + 1, n);
      RowMembers(from, from + 1, n);
      var m := n - from;
      var prev := |PairsFrom(from + 1, n)|;
      assert 2 * prev == (m - 1) * (m - 2);
      assert |PairsFrom(from, n)| == (m - 1) + prev;
      CountStep(m);
    }
  }

  lemma CountStep(m: int)
    ensures 2 * (m - 1) + (m - 1) * (m - 2) == m * (m - 1)
  {
  }

  /** There are n(n-1)/2 pairs. */
  lemma PairsCount(n: nat)
    ensures 2 * |Pairs(n)| == n * (n - 1)
  {
    PairsFromCount(0, n);
  }

  /** The three combinations the frame search runs over. */
  lemma PairsOfThree()
    ensures Pairs(3) == [(0, 1), (0, 2), (1, 2)]
  {
    assert Row(2, 3, 3) == [];
    assert PairsFrom(3, 3) == [];
    assert Row(1, 2, 3) == [(1, 2)];
    assert PairsFrom(2, 3) == [];
    assert Row(0, 1, 3) == [(0, 1), (0, 2)];
  }

  /** `Combination2inN(n)`: the two nested loops. */
  method Combination2inN(n: nat) returns (comb: seq<(nat, nat)>)
    ensures comb == Pairs(n)
  {
    comb := [];
    for i := 0 to n
      invariant comb + PairsFrom(i, n) == Pairs(n)
    {
      assert PairsFrom(i, n) == Row(i, i + 1, n) + PairsFrom(i + 1, n);
      ConcatAssoc(comb, Row(i, i + 1, n), PairsFrom(i + 1, n));
      comb := AppendRow(comb, i, n);
    }
    assert PairsFrom(n, n) == [];
  }

  /** The inner loop of `Combination2inN`: the pairs (i, j) for i < j < n appended in order. */
  method AppendRow(comb0: seq<(nat, nat)>, i: nat, n: nat) returns (comb: seq<(nat, nat)>)
    requires i < n
    ensures comb == comb0 + Row(i, i + 1, n)
  {
    comb := comb0;
    for j := i + 1 to n
      invariant comb + Row(i, j, n) == comb0 + Row(i, i + 1, n)
    {
      assert Row(i, j, n) == [(i, j)] + Row(i, j + 1, n);
      ConcatAssoc(comb, [(i, j)], Row(i, j + 1, n));
      comb := comb + [(i, j)];
    }
    assert Row(i, n, n) == [];
  }

  // -------------------------------------------------------------- search

  /** A pair of pairs: horizontal candidate indices, vertical candidate indices. */
  type Choice = ((nat, nat), (nat, nat))

  /** The rectangle test on horizontal candidates e and vertical candidates f (false off the lists). */
  function Admissible(ch: seq<Line>, cv: seq<Line>): (Choice -> bool)
  {
    (c: Choice) => c.0.0 < |ch| && c.0.1 < |ch| && c.1.0 < |cv| && c.1.1 < |cv|
      && IsCursoryFrame([ch[c.0.0], ch[c.0.1]], [cv[c.1.0], cv[c.1.1]])
  }

  /** The inner loop from position b: the first vertical pair that the test accepts with e. */
  function SearchV(adm: Choice -> bool, comb: seq<(nat, nat)>, e: (nat, nat), b: nat): (r: Option<Choice>)
    ensures r.Some? ==> r.value.0 == e && r.value.1 in comb
    decreases |comb| - b
  {
    if b >= |comb| then None
    else if adm((e, comb[b])) then Some((e, comb[b]))
    else SearchV(adm, comb, e, b + 1)
  }

  /** The outer loop from position a: the first (h-pair, v-pair) that the test accepts. */
  function SearchH(adm: Choice -> bool, comb: seq<(nat, nat)>, a: nat): (r: Option<Choice>)
    ensures r.Some? ==> r.value.0 in comb && r.value.1 in comb
    decreases |comb| - a
  {
    if a >= |comb| then None
    else
      var r := SearchV(adm, comb, comb[a], 0);
      if r.Some? then r else SearchH(adm, comb, a + 1)
  }

  /** Position q is the first from b where the vertical pair is accepted with e. */
  ghost predicate FirstV(adm: Choice -> bool, comb: seq<(nat, nat)>, e: (nat, nat), b: nat, q: nat)
  {
    b <= q < |comb| && adm((e, comb[q]))
    && forall q' :: b <= q' < q ==> !adm((e, comb[q']))
  }

  lemma {:induction false} SearchVSpec(adm: Choice -> bool, comb: seq<(nat, nat)>, e: (nat, nat), b: nat)
    ensures SearchV(adm, comb, e, b).None? <==> forall q :: b <= q < |comb| ==> !adm((e, comb[q]))
    ensures SearchV(adm, comb, e, b).Some? ==>
      exists q: nat :: FirstV(adm, comb, e, b, q) && SearchV(adm, comb, e, b).value == (e, comb[q])
    decreases |comb| - b
  {
    if b < |comb| && !adm((e, comb[b])) {
      SearchVSpec(adm, comb, e, b + 1);
      if SearchV(adm, comb, e, b).Some? {
        var q: nat :| FirstV(adm, comb, e, b + 1, q) && SearchV(adm, comb, e, b + 1).value == (e, comb[q]);
        assert FirstV(adm, comb, e, b, q);
      }
    } else if b < |comb| {
      assert FirstV(adm, comb, e, b, b);
    }
  }

  /** (p, q) is the first accepted pair of positions from a, in the order of the two loops. */
  ghost predicate FirstH(adm: Choice -> bool, comb: seq<(nat, nat)>, a: nat, p: nat, q: nat)
  {
    a <= p < |comb| && FirstV(adm, comb, comb[p], 0, q)
    && forall p', q' :: a <= p' < p && 0 <= q' < |comb| ==> !adm((comb[p'], comb[q']))
  }

  /** The test accepts no pair (comb[p], comb[q]) with a <= p. */
  ghost predicate NoneFrom(adm: Choice -> bool, comb: seq<(nat, nat)>, a: nat)
  {
    forall p, q :: a <= p < |comb| && 0 <= q < |comb| ==> !adm((comb[p], comb[q]))
  }

  /** The search finds nothing exactly when the test accepts no pair of pairs. */
  lemma {:induction false} SearchHNone(adm: Choice -> bool, comb: seq<(nat, nat)>, a: nat)
    ensures SearchH(adm, comb, a).None? <==> NoneFrom(adm, comb, a)
    decreases |comb| - a
  {
    if a < |comb| {
      SearchVSpec(adm, comb, comb[a], 0);
      SearchHNone(adm, comb, a + 1);
      if NoneFrom(adm, comb, a) {
        assert NoneFrom(adm, comb, a + 1);
      } else if SearchV(adm, comb, comb[a], 0).None? {
        var p, q :| a <= p < |comb| && 0 <= q < |comb| && adm((comb[p], comb[q]));
        assert p != a;
      }
    }
  }

  /** When the search finds a pair of pairs, it is the first in the order of the two loops. */
  lemma {:induction false} SearchHFirst(adm: Choice -> bool, comb: seq<(nat, nat)>, a: nat)
    ensures SearchH(adm, comb, a).Some? ==>
      exists p: nat, q: nat :: FirstH(adm, comb, a, p, q) && SearchH(adm, comb, a).value == (comb[p], comb[q])
    decreases |comb| - a
  {
    if a < |comb| {
      var r := SearchV(adm, comb, comb[a], 0);
      SearchVSpec(adm, comb, comb[a], 0);
      if r.Some? {
        var q: nat :| FirstV(adm, comb, comb[a], 0, q) && r.value == (comb[a], comb[q]);
        assert FirstH(adm, comb, a, a, q);
      } else {
        SearchHFirst(adm, comb, a + 1);
        if SearchH(adm, comb, a + 1).Some? {
          var p: nat, q: nat :| FirstH(adm, comb, a + 1, p, q) && SearchH(adm, comb, a + 1).value == (comb[p], comb[q]);
          assert FirstH(adm, comb, a, p, q);
        }
      }
    }
  }

  // ---------------------------------------------------------- frame field

  const NoLinesMsg: string := "直線が存在しません"
  const BothShortMsg: string := "水平線と垂直線のどちらも候補線の数が足りません"
  const HorizontalShortMsg: string := "水平線の候補線の数が足りません"
  const VerticalShortMsg: string := "垂直線の候補線の数が足りません"
  const FoundMsg: string := "枠線が存在しました"
  const NoRectangleMsg: string := "枠線となる四角形が存在しませんでした"
  const LayerErrorMsg: string := "枠線の構成するレイヤーがおかしいです"

  /** The found message differs from every other message and from the empty one. */
  lemma MessagesDiffer()
    ensures FoundMsg != NoLinesMsg && FoundMsg != BothShortMsg && FoundMsg != HorizontalShortMsg
    ensures FoundMsg != VerticalShortMsg && FoundMsg != NoRectangleMsg && FoundMsg != ""
  {
    assert FoundMsg[0] != NoLinesMsg[0] && FoundMsg[0] != BothShortMsg[0];
    assert FoundMsg[0] != HorizontalShortMsg[0] && FoundMsg[0] != VerticalShortMsg[0];
    assert |FoundMsg| != |NoRectangleMsg|;
  }

  /**
   * The fields of a `FrameField` once its constructor is done.  `raised`
   * records that the source raises instead: a corner of parallel or
   * degenerate frame lines (see CalPoint).
   */
  datatype FieldState = FieldState(
    candidateLine: seq<Line>,
    frameLineList: seq<Line>,
    errorStr: string,
    maxMinPoint: seq<Point>,
    hasFrame: bool,
    raised: bool)

  /** Sorting key for `sort(key=magnitude, reverse=True)`: longest first. */
  function ByLengthDesc(lib: Lib): Line -> Key
  {
    (l: Line) => Key(-Mag(lib, Direction(l)), 0.0)
  }

  /** The lines of one orientation, longest first (stable among equal lengths). */
  function Candidates(lib: Lib, lines: seq<Line>, vertical: bool): (r: seq<Line>)
    ensures |r| == |if vertical then Verticals(lib, lines) else Horizontals(lib, lines)|
  {
    if vertical then SortBy(Verticals(lib, lines), ByLengthDesc(lib))
    else SortBy(Horizontals(lib, lines), ByLengthDesc(lib))
  }

  /** The frame lines clockwise from the top: top, right, bottom, left. */
  function FrameLines(hs: seq<Line>, vs: seq<Line>): (r: seq<Line>)
    requires |hs| == 2 && |vs| == 2
    ensures |r| == 4
  {
    var hl, vl := Sort2(hs[0], hs[1], ByStartYDesc), Sort2(vs[0], vs[1], ByStartXDesc);
    [hl[0], vl[0], hl[1], vl[1]]
  }

  /**
   * `getframePoint` on [top, right, bottom, left]: left x bottom, then
   * top x right, and whether it raised on the way.
   */
  function FramePoints(lib: Lib, fl: seq<Line>): (seq<Point>, bool)
    requires |fl| == 4
  {
    var p := CalPoint(lib, fl[3], fl[2]);
    if p.None? then ([], true)
    else
      var q := CalPoint(lib, fl[0], fl[1]);
      if q.None? then ([p.value], true) else ([p.value, q.value], false)
  }

  /** `FrameField(lines)`: what `detectCursoryFrame` leaves in the fields. */
  function Cursory(lib: Lib, lines: seq<Line>): FieldState
  {
    if |lines| == 0 then FieldState([], [], NoLinesMsg, [], false, false)
    else
      var h, v := Candidates(lib, lines, false), Candidates(lib, lines, true);
      if |h| < 3 && |v| < 3 then FieldState([], [], BothShortMsg, [], false, false)
      else if |h| < 3 then FieldState([], [], HorizontalShortMsg, [], false, false)
      else if |v| < 3 then FieldState([], [], VerticalShortMsg, [], false, false)
      else
        SearchResult(lib, h[..3], v[..3])
  }

  /**
   * The fields after the search over the three longest horizontals `ch` and
   * verticals `cv`: the first accepted choice in loop order gives the frame
   * lines and corners.
   */
  function SearchResult(lib: Lib, ch: seq<Line>, cv: seq<Line>): FieldState
    requires |ch| == 3 && |cv| == 3
  {
    var found := SearchH(Admissible(ch, cv), Pairs(3), 0);
    if found.None? then FieldState(ch + cv, [], NoRectangleMsg, [], false, false)
    else
      var c := found.value;
      assert c.0.0 < c.0.1 < 3 && c.1.0 < c.1.1 < 3 by { PairsMembers(3); }
      var fl := FrameLines([ch[c.0.0], ch[c.0.1]], [cv[c.1.0], cv[c.1.1]]);
      var pts := FramePoints(lib, fl);
      if pts.1 then FieldState(ch + cv, fl, "", pts.0, false, true)
      else FieldState(ch + cv, fl, FoundMsg, pts.0, true, false)
  }

  /** With three candidates of each orientation, the fields are those of the search over the three longest. */
  lemma CursoryIsSearch(lib: Lib, lines: seq<Line>)
    requires |lines| > 0 && |Candidates(lib, lines, false)| >= 3 && |Candidates(lib, lines, true)| >= 3
    ensures Cursory(lib, lines) == SearchResult(lib, Candidates(lib, lines, false)[..3], Candidates(lib, lines, true)[..3])
  {
  }

  /** The classification and longest-first sorts of `detectCursoryFrame`. */
  method SortedCandidates(lib: Lib, lines: seq<Line>) returns (horizontal: seq<Line>, vertical: seq<Line>)
    ensures horizontal == Candidates(lib, lines, false) && vertical == Candidates(lib, lines, true)
  {
    horizontal, vertical := Classify(lib, lines);
    horizontal := SortBy(horizontal, ByLengthDesc(lib));
    vertical := SortBy(vertical, ByLengthDesc(lib));
  }

  /** The two nested loops of `detectCursoryFrame` up to the first accepted choice. */
  method FirstChoice(caHorizontal: seq<Line>, caVertical: seq<Line>, comb: seq<(nat, nat)>) returns (hit: Option<Choice>)
    requires |caHorizontal| == 3 && |caVertical| == 3 && comb == Pairs(3)
    ensures hit == SearchH(Admissible(caHorizontal, caVertical), comb, 0)
  {
    PairsOfThree();
    ghost var adm := Admissible(caHorizontal, caVertical);
    var a := 0;
    while a < |comb|
      invariant 0 <= a <= |comb|
      invariant SearchH(adm, comb, a) == SearchH(adm, comb, 0)
    {
      var e := comb[a];
      hit := FirstVertical(caHorizontal, caVertical, comb, e);
      if hit.Some? {
        return;
      }
      a := a + 1;
    }
    return None;
  }

  /** The inner loop for the horizontal pair `e`. */
  method FirstVertical(caHorizontal: seq<Line>, caVertical: seq<Line>, comb: seq<(nat, nat)>, e: (nat, nat))
    returns (hit: Option<Choice>)
    requires |caHorizontal| == 3 && |caVertical| == 3 && comb == [(0, 1), (0, 2), (1, 2)] && e in comb
    ensures hit == SearchV(Admissible(caHorizontal, caVertical), comb, e, 0)
  {
    ghost var adm := Admissible(caHorizontal, caVertical);
    var hLines := [caHorizontal[e.0], caHorizontal[e.1]];
    var b := 0;
    while b < |comb|
      invariant 0 <= b <= |comb|
      invariant SearchV(adm, comb, e, b) == SearchV(adm, comb, e, 0)
    {
      var f := comb[b];
      var vLines := [caVertical[f.0], caVertical[f.1]];
      assert adm((e, f)) == IsCursoryFrame(hLines, vLines);
      if IsCursoryFrame(hLines, vLines) {
        return Some((e, f));
      }
      b := b + 1;
    }
    return None;
  }

  /** The frame detector of one set of lines (`FrameField`). */
  class FrameField {
    var candidateLine: seq<Line>
    var frameLineList: seq<Line>
    var errorStr: string
    var maxMinPoint: seq<Point>
    var hasFrame: bool
    /** The source raises here instead of finishing the constructor. */
    var raised: bool

    function State(): FieldState
      reads this
    {
      FieldState(candidateLine, frameLineList, errorStr, maxMinPoint, hasFrame, raised)
    }

    constructor (lib: Lib, lines: seq<Line>)
      ensures State() == Cursory(lib, lines)
    {
      candidateLine, frameLineList, errorStr, maxMinPoint := [], [], "", [];
      hasFrame, raised := false, false;
      new;
      hasFrame := DetectCursoryFrame(lib, lines);
    }

    /** `detectCursoryFrame`: fills the fields and returns whether a frame was found. */
    method DetectCursoryFrame(lib: Lib, lines: seq<Line>) returns (found: bool)
      requires State() == FieldState([], [], "", [], false, false)
      modifies this
      ensures State() == Cursory(lib, lines).(hasFrame := false)
      ensures found == Cursory(lib, lines).hasFrame
    {
      if |lines| == 0 {
        errorStr := NoLinesMsg;
        return false;
      }
      var horizontal, vertical := SortedCandidates(lib, lines);
      if |horizontal| < 3 && |vertical| < 3 {
        errorStr := BothShortMsg;
        return false;
      } else if |horizontal| < 3 {
        errorStr := HorizontalShortMsg;
        return false;
      } else if |vertical| < 3 {
        errorStr := VerticalShortMsg;
        return false;
      }
      CursoryIsSearch(lib, lines);
      found := SearchCandidates(lib, horizontal[..3], vertical[..3]);
    }

    /** The candidates registered, then the search over them. */
    method SearchCandidates(lib: Lib, caHorizontal: seq<Line>, caVertical: seq<Line>) returns (found: bool)
      requires |caHorizontal| == 3 && |caVertical| == 3
      requires State() == FieldState([], [], "", [], false, false)
      modifies this
      ensures State() == SearchResult(lib, caHorizontal, caVertical).(hasFrame := false)
      ensures found == SearchResult(lib, caHorizontal, caVertical).hasFrame
    {
      AddCandidates(caHorizontal);
      AddCandidates(caVertical);
      assert State() == FieldState(caHorizontal + caVertical, [], "", [], false, false);
      var comb := Combination2inN(3);
      found := Search(lib, caHorizontal, caVertical, comb);
    }

    /** Appends the candidate lines in order. */
    method AddCandidates(ls: seq<Line>)
      modifies this
      ensures State() == old(State()).(candidateLine := old(candidateLine) + ls)
    {
      for k := 0 to |ls|
        invariant State() == old(State()).(candidateLine := old(candidateLine) + ls[..k])
      {
        assert ls[..k + 1] == ls[..k] + [ls[k]];
        candidateLine := candidateLine + [ls[k]];
      }
      assert ls[..|ls|] == ls;
    }

    /** The two loops over `comb` x `comb`, with the frame registration on the first hit. */
    method Search(lib: Lib, caHorizontal: seq<Line>, caVertical: seq<Line>, comb: seq<(nat, nat)>) returns (found: bool)
      requires |caHorizontal| == 3 && |caVertical| == 3 && comb == Pairs(3)
      requires State() == FieldState(caHorizontal + caVertical, [], "", [], false, false)
      modifies this
      ensures State() == SearchResult(lib, caHorizontal, caVertical).(hasFrame := false)
      ensures found == SearchResult(lib, caHorizontal, caVertical).hasFrame
    {
      var hit := FirstChoice(caHorizontal, caVertical, comb);
      if hit.None? {
        errorStr := NoRectangleMsg;
        return false;
      }
      var c := hit.value;
      PairsMembers(3);
      found := Register(lib, [caHorizontal[c.0.0], caHorizontal[c.0.1]], [caVertical[c.1.0], caVertical[c.1.1]]);
    }

    /** Registers the frame lines clockwise from the top and computes the corners. */
    method Register(lib: Lib, hLines: seq<Line>, vLines: seq<Line>) returns (found: bool)
      requires |hLines| == 2 && |vLines| == 2
      requires frameLineList == [] && maxMinPoint == [] && !raised
      modifies this
      ensures frameLineList == FrameLines(hLines, vLines)
      ensures (maxMinPoint, raised) == FramePoints(lib, frameLineList)
      ensures errorStr == (if raised then old(errorStr) else FoundMsg) && found == !raised
      ensures candidateLine == old(candidateLine) && hasFrame == old(hasFrame)
    {
      var hl := Sort2(hLines[0], hLines[1], ByStartYDesc);
      var vl := Sort2(vLines[0], vLines[1], ByStartXDesc);
      frameLineList := frameLineList + [hl[0]];
      frameLineList := frameLineList + [vl[0]];
      frameLineList := frameLineList + [hl[1]];
      frameLineList := frameLineList + [vl[1]];
      assert frameLineList == [hl[0], vl[0], hl[1], vl[1]];
      GetFramePoint(lib);
      if raised {
        return false;
      }
      errorStr := FoundMsg;
      return true;
    }

    /** `getframePoint`: the corners left x bottom and top x right. */
    method GetFramePoint(lib: Lib)
      requires |frameLineList| == 4 && maxMinPoint == [] && !raised
      modifies this
      ensures frameLineList == old(frameLineList) && candidateLine == old(candidateLine)
      ensures (maxMinPoint, raised) == FramePoints(lib, frameLineList)
      ensures errorStr == old(errorStr) && hasFrame == old(hasFrame)
    {
      var topLine, rightLine, bottomLine, leftLine := frameLineList[0], frameLineList[1], frameLineList[2], frameLineList[3];
      var p := CalPoint(lib, leftLine, bottomLine);
      if p.None? {
        raised := true;
        return;
      }
      maxMinPoint := maxMinPoint + [p.value];
      assert maxMinPoint == [p.value];
      var q := CalPoint(lib, topLine, rightLine);
      if q.None? {
        raised := true;
        return;
      }
      maxMinPoint := maxMinPoint + [q.value];
      assert maxMinPoint == [p.value, q.value];
    }
  }

  // ----------------------------------------------------- frame properties

  /** Point p lies on the line through l. */
  predicate OnLine(p: Point, l: Line)
  {
    Cross(Sub(p, l.start), Direction(l)) == 0.0
  }

  /**
   * The candidates are the lines of that orientation, longest first: a
   * permutation of them in which every line among the first three is at
   * least as long as every later one.
   */
  lemma CandidatesLongest(lib: Lib, lines: seq<Line>, vertical: bool)
    ensures var src := if vertical then Verticals(lib, lines) else Horizontals(lib, lines);
      multiset(Candidates(lib, lines, vertical)) == multiset(src)
    ensures forall i, j :: 0 <= i < j < |Candidates(lib, lines, vertical)| ==>
      Mag(lib, Direction(Candidates(lib, lines, vertical)[j])) <= Mag(lib, Direction(Candidates(lib, lines, vertical)[i]))
  {
    var src := if vertical then Verticals(lib, lines) else Horizontals(lib, lines);
    SortBySorted(src, ByLengthDesc(lib));
    var c := Candidates(lib, lines, vertical);
    assert c == SortBy(src, ByLengthDesc(lib));
    forall i, j | 0 <= i < j < |c| ensures Mag(lib, Direction(c[j])) <= Mag(lib, Direction(c[i])) {
      assert !KeyLt(ByLengthDesc(lib)(c[j]), ByLengthDesc(lib)(c[i]));
    }
  }

  /** The early exits of `detectCursoryFrame`, each with its own message and no frame. */
  lemma CursoryRejects(lib: Lib, lines: seq<Line>)
    ensures var st := Cursory(lib, lines);
      var nh, nv := |Horizontals(lib, lines)|, |Verticals(lib, lines)|;
      (|lines| == 0 ==> st.errorStr == NoLinesMsg)
      && (|lines| > 0 && nh < 3 && nv < 3 ==> st.errorStr == BothShortMsg)
      && (|lines| > 0 && nh < 3 && 3 <= nv ==> st.errorStr == HorizontalShortMsg)
      && (|lines| > 0 && 3 <= nh && nv < 3 ==> st.errorStr == VerticalShortMsg)
      && (|lines| == 0 || nh < 3 || nv < 3 ==> !st.hasFrame && !st.raised && st.maxMinPoint == [] && st.candidateLine == [])
  {
  }

  /**
   * Without an exception, a frame comes with exactly two corner points, the
   * found message and four frame lines; no frame comes with no points.
   */
  lemma CursoryPoints(lib: Lib, lines: seq<Line>)
    ensures var st := Cursory(lib, lines);
      (st.hasFrame ==> !st.raised && |st.maxMinPoint| == 2 && |st.frameLineList| == 4 && st.errorStr == FoundMsg)
      && (!st.hasFrame && !st.raised ==> st.maxMinPoint == [] && st.errorStr != FoundMsg)
  {
    if |lines| > 0 {
      var h, v := Candidates(lib, lines, false), Candidates(lib, lines, true);
      if |h| >= 3 && |v| >= 3 {
        SearchResultPoints(lib, h[..3], v[..3]);
      } else {
        MessagesDiffer();
      }
    }
  }

  lemma SearchResultPoints(lib: Lib, ch: seq<Line>, cv: seq<Line>)
    requires |ch| == 3 && |cv| == 3
    ensures var st := SearchResult(lib, ch, cv);
      (st.hasFrame ==> !st.raised && |st.maxMinPoint| == 2 && |st.frameLineList| == 4 && st.errorStr == FoundMsg)
      && (!st.hasFrame && !st.raised ==> st.maxMinPoint == [] && st.errorStr != FoundMsg)
  {
    MessagesDiffer();
    var found := SearchH(Admissible(ch, cv), Pairs(3), 0);
    if found.Some? {
      var c := found.value;
      PairsMembers(3);
      var fl := FrameLines([ch[c.0.0], ch[c.0.1]], [cv[c.1.0], cv[c.1.1]]);
      FramePointsCount(lib, fl);
    }
  }

  /** Corner points come two at a time, unless the computation raised. */
  lemma FramePointsCount(lib: Lib, fl: seq<Line>)
    requires |fl| == 4
    ensures !FramePoints(lib, fl).1 ==> |FramePoints(lib, fl).0| == 2
  {
  }

  /**
   * A found frame: lines ordered top, right, bottom, left (top at least as
   * high as bottom, right at least as far right as left), the first corner
   * on the left and bottom lines, the second on the top and right lines, and
   * all four among the candidates of their orientation.
   */
  lemma CursoryFrameShape(lib: Lib, lines: seq<Line>)
    requires Cursory(lib, lines).hasFrame
    ensures var st := Cursory(lib, lines);
      var fl, pts := st.frameLineList, st.maxMinPoint;
      |fl| == 4 && |pts| == 2 && |st.candidateLine| == 6
      && fl[2].start.y <= fl[0].start.y && fl[3].start.x <= fl[1].start.x
      && OnLine(pts[0], fl[3]) && OnLine(pts[0], fl[2]) && OnLine(pts[1], fl[0]) && OnLine(pts[1], fl[1])
      && fl[0] in st.candidateLine[..3] && fl[2] in st.candidateLine[..3]
      && fl[1] in st.candidateLine[3..] && fl[3] in st.candidateLine[3..]
  {
    CursoryIsSearch(lib, lines);
    SearchResultShape(lib, Candidates(lib, lines, false)[..3], Candidates(lib, lines, true)[..3]);
  }

  /** `CursoryFrameShape` for the search over three horizontals `ch` and verticals `cv`. */
  lemma SearchResultShape(lib: Lib, ch: seq<Line>, cv: seq<Line>)
    requires |ch| == 3 && |cv| == 3 && SearchResult(lib, ch, cv).hasFrame
    ensures var st := SearchResult(lib, ch, cv);
      var fl, pts := st.frameLineList, st.maxMinPoint;
      |fl| == 4 && |pts| == 2 && |st.candidateLine| == 6
      && fl[2].start.y <= fl[0].start.y && fl[3].start.x <= fl[1].start.x
      && OnLine(pts[0], fl[3]) && OnLine(pts[0], fl[2]) && OnLine(pts[1], fl[0]) && OnLine(pts[1], fl[1])
      && fl[0] in st.candidateLine[..3] && fl[2] in st.candidateLine[..3]
      && fl[1] in st.candidateLine[3..] && fl[3] in st.candidateLine[3..]
  {
    var st := SearchResult(lib, ch, cv);
    SearchResultFound(lib, ch, cv);
    var c := SearchH(Admissible(ch, cv), Pairs(3), 0).value;
    var hs, vs := [ch[c.0.0], ch[c.0.1]], [cv[c.1.0], cv[c.1.1]];
    var fl := FrameLines(hs, vs);
    assert fl == st.frameLineList;
    assert st.maxMinPoint == FramePoints(lib, fl).0 && !FramePoints(lib, fl).1;
    FrameLinesOrder(hs, vs);
    FramePointsOnLines(lib, fl);
    assert (ch + cv)[..3] == ch && (ch + cv)[3..] == cv;
    assert hs[0] in ch && hs[1] in ch && vs[0] in cv && vs[1] in cv;
  }

  /** `FrameLines` orders top above bottom and right of left, and keeps the lines' orientation. */
  lemma FrameLinesOrder(hs: seq<Line>, vs: seq<Line>)
    requires |hs| == 2 && |vs| == 2
    ensures var fl := FrameLines(hs, vs);
      fl[2].start.y <= fl[0].start.y && fl[3].start.x <= fl[1].start.x
      && fl[0] in hs && fl[2] in hs && fl[1] in vs && fl[3] in vs
  {
  }

  /** Corners that were computed lie on the lines they were computed from. */
  lemma FramePointsOnLines(lib: Lib, fl: seq<Line>)
    requires |fl| == 4 && !FramePoints(lib, fl).1
    ensures var pts := FramePoints(lib, fl).0;
      |pts| == 2 && OnLine(pts[0], fl[3]) && OnLine(pts[0], fl[2]) && OnLine(pts[1], fl[0]) && OnLine(pts[1], fl[1])
  {
    CalPointOnBoth(lib, fl[3], fl[2]);
    CalPointOnBoth(lib, fl[0], fl[1]);
  }

  /** The frame lines `FrameLines` builds from choice (comb[p], comb[q]). */
  ghost predicate ChosenLines(ch: seq<Line>, cv: seq<Line>, comb: seq<(nat, nat)>, p: nat, q: nat, fl: seq<Line>)
  {
    p < |comb| && q < |comb| && ChoiceLines(ch, cv, (comb[p], comb[q]), fl)
  }

  /** The frame lines `FrameLines` builds from choice c. */
  ghost predicate ChoiceLines(ch: seq<Line>, cv: seq<Line>, c: Choice, fl: seq<Line>)
  {
    c.0.0 < |ch| && c.0.1 < |ch| && c.1.0 < |cv| && c.1.1 < |cv|
    && fl == FrameLines([ch[c.0.0], ch[c.0.1]], [cv[c.1.0], cv[c.1.1]])
  }

  /** The fields of `SearchResult` in terms of the search's choice. */
  lemma SearchResultFound(lib: Lib, ch: seq<Line>, cv: seq<Line>)
    requires |ch| == 3 && |cv| == 3
    ensures var st, found := SearchResult(lib, ch, cv), SearchH(Admissible(ch, cv), Pairs(3), 0);
      st.candidateLine == ch + cv
      && ((st.hasFrame || st.raised) <==> found.Some?)
      && (found.Some? ==> ChoiceLines(ch, cv, found.value, st.frameLineList))
  {
    var found := SearchH(Admissible(ch, cv), Pairs(3), 0);
    if found.Some? {
      PairsMembers(3);
    }
  }

  /**
   * Over three horizontals and three verticals, a choice is made (and then
   * a frame found, unless the corner computation raises) exactly when some
   * pair of each passes the rectangle test, and the chosen one is the first
   * in `Combination2inN(3)` x `Combination2inN(3)` order.
   */
  lemma SearchResultChoice(lib: Lib, ch: seq<Line>, cv: seq<Line>)
    requires |ch| == 3 && |cv| == 3
    ensures var st, adm, comb := SearchResult(lib, ch, cv), Admissible(ch, cv), Pairs(3);
      st.candidateLine == ch + cv
      && ((st.hasFrame || st.raised) <==> exists p, q :: 0 <= p < 3 && 0 <= q < 3 && adm((comb[p], comb[q])))
      && (st.hasFrame || st.raised ==>
            exists p: nat, q: nat :: FirstH(adm, comb, 0, p, q) && ChosenLines(ch, cv, comb, p, q, st.frameLineList))
  {
    var adm, comb := Admissible(ch, cv), Pairs(3);
    var found := SearchH(adm, comb, 0);
    SearchResultFound(lib, ch, cv);
    PairsOfThree();
    SearchOfThree(adm, comb);
    if found.Some? {
      var p: nat, q: nat :| FirstH(adm, comb, 0, p, q) && found.value == (comb[p], comb[q]);
      assert ChosenLines(ch, cv, comb, p, q, SearchResult(lib, ch, cv).frameLineList);
    }
  }

  /** `SearchHNone` and `SearchHFirst` over the three pairs of three. */
  lemma SearchOfThree(adm: Choice -> bool, comb: seq<(nat, nat)>)
    requires comb == [(0, 1), (0, 2), (1, 2)]
    ensures SearchH(adm, comb, 0).Some? <==> exists p, q :: 0 <= p < 3 && 0 <= q < 3 && adm((comb[p], comb[q]))
    ensures SearchH(adm, comb, 0).Some? ==>
      exists p: nat, q: nat :: FirstH(adm, comb, 0, p, q) && SearchH(adm, comb, 0).value == (comb[p], comb[q])
  {
    SearchHNone(adm, comb, 0);
    SearchHFirst(adm, comb, 0);
  }

  /** `SearchResultChoice` for the three longest lines of each orientation. */
  lemma CursoryChoice(lib: Lib, lines: seq<Line>)
    requires |Horizontals(lib, lines)| >= 3 && |Verticals(lib, lines)| >= 3
    ensures var ch, cv := Candidates(lib, lines, false)[..3], Candidates(lib, lines, true)[..3];
      var st, adm, comb := Cursory(lib, lines), Admissible(ch, cv), Pairs(3);
      st.candidateLine == ch + cv
      && ((st.hasFrame || st.raised) <==> exists p, q :: 0 <= p < 3 && 0 <= q < 3 && adm((comb[p], comb[q])))
      && (st.hasFrame || st.raised ==>
            exists p: nat, q: nat :: FirstH(adm, comb, 0, p, q) && ChosenLines(ch, cv, comb, p, q, st.frameLineList))
  {
    var ch, cv := Candidates(lib, lines, false)[..3], Candidates(lib, lines, true)[..3];
    assert |lines| > 0;
    assert Cursory(lib, lines) == SearchResult(lib, ch, cv);
    SearchResultChoice(lib, ch, cv);
  }

  // ------------------------------------------------------------- detect_frame

  /** `Frame_extractor_result`: the frame corners (empty when none) and the message. */
  datatype FrameResult = FrameResult(framePoint: seq<Point>, message: string)

  /** The combined lines of every layer, in layer-table order. */
  function LayerLines(lib: Lib, es: seq<Entity>, layers: seq<LayerDef>): (r: seq<seq<Line>>)
    ensures |r| == |layers|
    ensures forall k :: 0 <= k < |layers| ==> r[k] == Combined(lib, LinesOf(OnLayer(es, layers[k].name)))
  {
    seq(|layers|, k requires 0 <= k < |layers| => Combined(lib, LinesOf(OnLayer(es, layers[k].name))))
  }

  /** `lineInAllLayer.extend(lines)` over the layers. */
  function Concat(lss: seq<seq<Line>>): (r: seq<Line>)
    ensures forall l :: l in r <==> exists k :: 0 <= k < |lss| && l in lss[k]
  {
    if |lss| == 0 then []
    else
      var init := Concat(lss[..|lss| - 1]);
      assert forall k :: 0 <= k < |lss| - 1 ==> lss[..|lss| - 1][k] == lss[k];
      init + lss[|lss| - 1]
  }

  /** The index of the first field with a frame. */
  function FirstFramed(fs: seq<FieldState>): (r: Option<nat>)
    ensures r.Some? ==> r.value < |fs| && fs[r.value].hasFrame && forall j :: 0 <= j < r.value ==> !fs[j].hasFrame
    ensures r.None? ==> forall j :: 0 <= j < |fs| ==> !fs[j].hasFrame
  {
    if |fs| == 0 then None
    else if fs[0].hasFrame then Some(0)
    else
      var r := FirstFramed(fs[1..]);
      assert forall j :: 1 <= j < |fs| ==> fs[1..][j - 1] == fs[j];
      if r.Some? then Some(r.value + 1) else None
  }

  /** The decision of `detect_frame` on the union's field and the per-layer fields. */
  function Decide(all: FieldState, fs: seq<FieldState>): FrameResult
  {
    if !all.hasFrame then FrameResult(all.maxMinPoint, all.errorStr)
    else
      var k := FirstFramed(fs);
      if k.Some? then FrameResult(fs[k.value].maxMinPoint, fs[k.value].errorStr)
      else FrameResult(all.maxMinPoint, LayerErrorMsg)
  }

  /** The fields of every layer's `FrameField`. */
  function Fields(lib: Lib, lss: seq<seq<Line>>): (r: seq<FieldState>)
    ensures |r| == |lss| && forall k :: 0 <= k < |lss| ==> r[k] == Cursory(lib, lss[k])
  {
    seq(|lss|, k requires 0 <= k < |lss| => Cursory(lib, lss[k]))
  }

  /** Some field's constructor raised. */
  predicate AnyRaised(fs: seq<FieldState>)
  {
    exists k :: 0 <= k < |fs| && fs[k].raised
  }

  /** `Frame_extractor(doc).pointAndMessage`; None where a constructor raises. */
  function FrameOf(lib: Lib, d: Drawing): Option<FrameResult>
  {
    var lss := LayerLines(lib, d.entities, d.layers);
    var fs := Fields(lib, lss);
    var all := Cursory(lib, Concat(lss));
    if AnyRaised(fs) || all.raised then None else Some(Decide(all, fs))
  }

  /**
   * The layer decision: the frame points are non-empty exactly when the
   * union of all layers has a frame; then they are the first framed layer's
   * with its message, or the union's with the layer-error message when no
   * single layer has a frame; otherwise the union's message is kept.
   */
  lemma DecideSound(lib: Lib, lss: seq<seq<Line>>)
    requires !AnyRaised(Fields(lib, lss)) && !Cursory(lib, Concat(lss)).raised
    ensures var fs, all := Fields(lib, lss), Cursory(lib, Concat(lss));
      var r := Decide(all, fs);
      (|r.framePoint| > 0 <==> all.hasFrame)
      && (|r.framePoint| == 0 || |r.framePoint| == 2)
      && (!all.hasFrame ==> r.message == all.errorStr)
      && (all.hasFrame && (exists k :: 0 <= k < |lss| && fs[k].hasFrame) ==>
            exists k :: 0 <= k < |lss| && fs[k].hasFrame && (forall j :: 0 <= j < k ==> !fs[j].hasFrame)
              && r == FrameResult(fs[k].maxMinPoint, FoundMsg))
      && (all.hasFrame && (forall k :: 0 <= k < |lss| ==> !fs[k].hasFrame) ==>
            r == FrameResult(all.maxMinPoint, LayerErrorMsg))
  {
    var fs, all := Fields(lib, lss), Cursory(lib, Concat(lss));
    CursoryPoints(lib, Concat(lss));
    var k := FirstFramed(fs);
    if k.Some? {
      CursoryPoints(lib, lss[k.value]);
    }
  }

  /** The first framed field is the one at `i` when none before it has a frame. */
  lemma FirstFramedAt(fs: seq<FieldState>, i: nat)
    requires i < |fs| && fs[i].hasFrame && forall j :: 0 <= j < i ==> !fs[j].hasFrame
    ensures FirstFramed(fs) == Some(i)
  {
  }

  /** The loop of `detect_frame` over the per-layer fields, returning at the first frame. */
  method FirstFramedLayer(frameInLayers: seq<FieldState>) returns (k: Option<nat>)
    ensures k == FirstFramed(frameInLayers)
  {
    for i := 0 to |frameInLayers|
      invariant forall j :: 0 <= j < i ==> !frameInLayers[j].hasFrame
    {
      if frameInLayers[i].hasFrame {
        FirstFramedAt(frameInLayers, i);
        return Some(i);
      }
    }
    return None;
  }

  /** The union of the first i+1 layers extends the union of the first i. */
  lemma ConcatStep(lss: seq<seq<Line>>, i: nat)
    requires i < |lss|
    ensures Concat(lss[..i + 1]) == Concat(lss[..i]) + lss[i]
  {
    assert lss[..i + 1][..i] == lss[..i];
  }

  /**
   * The per-layer loop of `detect_frame`: every layer's combined lines and
   * its `FrameField`, stopping where a constructor raises.
   */
  method CollectLayers(lib: Lib, d: Drawing) returns (linesInLayer: seq<seq<Line>>, frameInLayers: seq<FieldState>, raised: bool)
    requires SqrtSound(lib) && 0.0 <= lib.cos89
    ensures raised == AnyRaised(Fields(lib, LayerLines(lib, d.entities, d.layers)))
    ensures !raised ==> linesInLayer == LayerLines(lib, d.entities, d.layers) && frameInLayers == Fields(lib, linesInLayer)
  {
    var layers := d.layers;
    ghost var lss := LayerLines(lib, d.entities, layers);
    ghost var fs := Fields(lib, lss);
    linesInLayer, frameInLayers := [], [];
    for i := 0 to |layers|
      invariant linesInLayer == lss[..i]
      invariant frameInLayers == fs[..i]
      invariant !AnyRaised(frameInLayers)
    {
      var lineList := new CombinedLine(lib, d.entities, layers[i].name);
      var frame := new FrameField(lib, lineList.combinedLines);
      if frame.raised {
        assert fs[i].raised;
        return linesInLayer, frameInLayers, true;
      }
      SliceStep(lss, i);
      SliceStep(fs, i);
      linesInLayer := linesInLayer + [lineList.combinedLines];
      frameInLayers := frameInLayers + [frame.State()];
    }
    assert linesInLayer == lss && frameInLayers == fs;
    raised := false;
  }

  /** The union of the layers' lines, in layer order. */
  method UnionLines(linesInLayer: seq<seq<Line>>) returns (lineInAllLayer: seq<Line>)
    ensures lineInAllLayer == Concat(linesInLayer)
  {
    lineInAllLayer := [];
    for i := 0 to |linesInLayer|
      invariant lineInAllLayer == Concat(linesInLayer[..i])
    {
      ConcatStep(linesInLayer, i);
      lineInAllLayer := lineInAllLayer + linesInLayer[i];
    }
    assert linesInLayer[..|linesInLayer|] == linesInLayer;
  }

  /**
   * `Frame_extractor.detect_frame`: combine every layer and look for a frame
   * in it, then in the union of all layers; a frame of the union is reported
   * with the first framed layer's corners, or with the layer-error message
   * when no single layer has one.
   */
  method DetectFrame(lib: Lib, d: Drawing) returns (r: Option<FrameResult>)
    requires SqrtSound(lib) && 0.0 <= lib.cos89
    ensures r == FrameOf(lib, d)
  {
    var linesInLayer, frameInLayers, raised := CollectLayers(lib, d);
    if raised {
      return None;
    }
    var lineInAllLayer := UnionLines(linesInLayer);
    var frameInAll := new FrameField(lib, lineInAllLayer);
    if frameInAll.raised {
      return None;
    }
    if !frameInAll.hasFrame {
      return Some(FrameResult(frameInAll.maxMinPoint, frameInAll.errorStr));
    }
    var k := FirstFramedLayer(frameInLayers);
    if k.Some? {
      return Some(FrameResult(frameInLayers[k.value].maxMinPoint, frameInLayers[k.value].errorStr));
    }
    return Some(FrameResult(frameInAll.maxMinPoint, LayerErrorMsg));
  }
}
