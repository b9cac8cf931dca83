/**
 * `SummarizeDrawer`: lays the findings out around the drawing.  Findings in
 * the upper-left quadrant get captions in a row of slots above the drawing,
 * the other positioned findings get slots right of it, each joined to its
 * finding by a leader routed so that no two leaders cross; position-less
 * findings are listed below the drawing.  The text, arrow and line drawing
 * itself is not modelled: the model computes where each caption goes.
 */
module SummarizeDrawer {
  import opened Geometry
  import opened Entities
  import opened CheckResults
  import opened BoundingBox
  import opened NonCrossLines
  import opened FiniteSets
  import opened SeqFacts

  /** A3 paper, width and height. */
  const PaperW: real := 420.0
  const PaperH: real := 297.0
  const BaseFontSize: real := 6.0
  const BaseLineSpace: real := 14.0
  const BaseLineWidth: real := 0.8

  // -------------------------------------------------------------- scale factor

  /** The paper scaled by k covers a drawing of the box's width and height. */
  predicate PaperCovers(k: real, b: Box)
  {
    b.rgt - b.lft <= k * PaperW && b.top - b.btm <= k * PaperH
  }

  /** `__scale_factor`: 1 without a box, else max(w / 420, h / 297). */
  function ScaleFactor(bb: Option<Box>): real
  {
    if bb.None? then 1.0
    else Max((bb.value.rgt - bb.value.lft) / PaperW, (bb.value.top - bb.value.btm) / PaperH)
  }

  /** The scale factor is the least factor by which the paper covers the drawing. */
  lemma ScaleFactorLeast(b: Box)
    ensures PaperCovers(ScaleFactor(Some(b)), b)
    ensures forall k: real :: PaperCovers(k, b) ==> ScaleFactor(Some(b)) <= k
  {
  }

  // ------------------------------------------------------------------ split

  datatype Region = Upper | Right | Non

  /** The area a finding is listed in: by its position against the box centre. */
  function RegionOf(bb: Box, r: CheckResult): Region
  {
    var cx, cy := (bb.lft + bb.rgt) / 2.0, (bb.btm + bb.top) / 2.0;
    if r.pos.None? then Non
    else if r.pos.value.x < cx && r.pos.value.y > cy then Upper
    else Right
  }

  /** The findings of region g, in order. */
  function Select(bb: Box, rs: seq<CheckResult>, g: Region): (r: seq<CheckResult>)
    ensures forall x :: x in r <==> x in rs && RegionOf(bb, x) == g
    ensures forall i :: 0 <= i < |r| ==> RegionOf(bb, r[i]) == g
  {
    if |rs| == 0 then []
    else
      var init, x := rs[..|rs| - 1], rs[|rs| - 1];
      assert rs == init + [x];
      Select(bb, init, g) + (if RegionOf(bb, x) == g then [x] else [])
  }

  /** Selecting distributes over concatenation: the split keeps the order of the findings. */
  lemma {:induction false} SelectAppend(bb: Box, a: seq<CheckResult>, b: seq<CheckResult>, g: Region)
    ensures Select(bb, a + b, g) == Select(bb, a, g) + Select(bb, b, g)
    decreases |b|
  {
    if |b| == 0 {
      assert a + b == a;
    } else {
      var init, x := b[..|b| - 1], b[|b| - 1];
      AppendLast(a, b);
      SelectAppend(bb, a, init, g);
      ConcatAssoc(Select(bb, a, g), Select(bb, init, g), if RegionOf(bb, x) == g then [x] else []);
    }
  }

  /** Every finding lands in exactly one of the three lists. */
  lemma {:induction false} SelectPartition(bb: Box, rs: seq<CheckResult>)
    ensures multiset(Select(bb, rs, Upper)) + multiset(Select(bb, rs, Right)) + multiset(Select(bb, rs, Non))
      == multiset(rs)
    ensures |Select(bb, rs, Upper)| + |Select(bb, rs, Right)| + |Select(bb, rs, Non)| == |rs|
  {
    if |rs| > 0 {
      var init, x := rs[..|rs| - 1], rs[|rs| - 1];
      SelectPartition(bb, init);
      MultisetLast(rs);
      var u, r, n := Select(bb, init, Upper), Select(bb, init, Right), Select(bb, init, Non);
      SumWithOne(multiset(u), multiset(r), multiset(n), multiset(init), x);
      match RegionOf(bb, x)
      case Upper =>
        assert Select(bb, rs, Upper) == u + [x] && Select(bb, rs, Right) == r && Select(bb, rs, Non) == n;
        assert multiset(u + [x]) == multiset(u) + multiset{x};
      case Right =>
        assert Select(bb, rs, Upper) == u && Select(bb, rs, Right) == r + [x] && Select(bb, rs, Non) == n;
        assert multiset(r + [x]) == multiset(r) + multiset{x};
      case Non =>
        assert Select(bb, rs, Upper) == u && Select(bb, rs, Right) == r && Select(bb, rs, Non) == n + [x];
        assert multiset(n + [x]) == multiset(n) + multiset{x};
    }
  }

  /** Adding one element to any of three parts adds it to their sum. */
  lemma SumWithOne<T>(a: multiset<T>, b: multiset<T>, c: multiset<T>, m: multiset<T>, x: T)
    requires a + b + c == m
    ensures (a + multiset{x}) + b + c == m + multiset{x}
    ensures a + (b + multiset{x}) + c == m + multiset{x}
    ensures a + b + (c + multiset{x}) == m + multiset{x}
  {
  }

  /** `__split_to_upper_right_non`: one pass appending each finding to its area's list. */
  method SplitToUpperRightNon(bb: Box, results: seq<CheckResult>)
    returns (upper: seq<CheckResult>, right: seq<CheckResult>, non: seq<CheckResult>)
    ensures upper == Select(bb, results, Upper)
    ensures right == Select(bb, results, Right)
    ensures non == Select(bb, results, Non)
  {
    var cx, cy := (bb.lft + bb.rgt) / 2.0, (bb.btm + bb.top) / 2.0;
    upper, right, non := [], [], [];
    for i := 0 to |results|
      invariant upper == Select(bb, results[..i], Upper)
      invariant right == Select(bb, results[..i], Right)
      invariant non == Select(bb, results[..i], Non)
    {
      var r := results[i];
      PrefixStep(results, i);
      if r.pos.None? {
        non := non + [r];
      } else if r.pos.value.x < cx && r.pos.value.y > cy {
        upper := upper + [r];
      } else {
        right := right + [r];
      }
    }
    assert results[..|results|] == results;
  }

  // ------------------------------------------------------------------ slots

  /** `min(maxCount, len(results))`, with a missing maxCount meaning all. */
  function DrawCount(maxCount: Option<nat>, n: nat): (c: nat)
    ensures c <= n && (maxCount.Some? ==> c <= maxCount.value)
    ensures c == n || (maxCount.Some? && c == maxCount.value)
  {
    if maxCount.None? then n else Min(maxCount.value as real, n as real).Floor
  }

  /** The i-th slot row is (i + 1) line spaces from the reference line. */
  function Offset(i: nat, ls: real): real { (i + 1) as real * ls }

  lemma OffsetIncreasing(i: nat, j: nat, ls: real)
    requires i < j && 0.0 < ls
    ensures 0.0 < Offset(i, ls) < Offset(j, ls)
  {
    var d := (j - i) as real;
    assert Offset(j, ls) == Offset(i, ls) + d * ls;
    assert 0.0 < d * ls;
    assert 0.0 < (i + 1) as real * ls;
  }

  /** The upper-area tails: at x = (2 lft + 3 rgt) / 5, one line space apart going up from the top. */
  function UpperTails(bb: Box, ls: real, count: nat): (t: seq<Point>)
    ensures |t| == count
  {
    seq(count, i requires 0 <= i < count => Point((2.0 * bb.lft + 3.0 * bb.rgt) / 5.0, bb.top + Offset(i, ls)))
  }

  /** The right-area tails: one line space right of the box, one line space apart going down from the top. */
  function RightTails(bb: Box, ls: real, count: nat): (t: seq<Point>)
    ensures |t| == count
  {
    seq(count, i requires 0 <= i < count => Point(bb.rgt + ls, bb.top - Offset(i, ls)))
  }

  /** The bottom-area caption points: at the left edge, one line space apart going down from the bottom. */
  function BottomPoints(bb: Box, ls: real, count: nat): (t: seq<Point>)
    ensures |t| == count
  {
    seq(count, i requires 0 <= i < count => Point(bb.lft, bb.btm - Offset(i, ls)))
  }

  /**
   * With a positive line space the slots are distinct and outside the box:
   * upper tails share one x and rise strictly above the top; right tails lie
   * right of the box and fall strictly below the top; bottom points lie at
   * the left edge and fall strictly below the bottom.
   */
  lemma SlotsOrdered(bb: Box, ls: real, count: nat)
    requires 0.0 < ls
    ensures var up, rt, bt := UpperTails(bb, ls, count), RightTails(bb, ls, count), BottomPoints(bb, ls, count);
      (forall i, j :: 0 <= i < j < count ==> bb.top < up[i].y < up[j].y && up[i].x == up[j].x)
      && (forall i, j :: 0 <= i < j < count ==> rt[j].y < rt[i].y < bb.top && bb.rgt < rt[i].x == rt[j].x)
      && (forall i, j :: 0 <= i < j < count ==> bt[j].y < bt[i].y < bb.btm && bt[i].x == bb.lft)
  {
    forall i: nat, j: nat | i < j < count
      ensures 0.0 < Offset(i, ls) < Offset(j, ls)
    {
      OffsetIncreasing(i, j, ls);
    }
  }

  // ------------------------------------------------------------- annotations

  /** Where one caption goes: its text, its slot, the finding it points at (if any) and its colour. */
  datatype Annotation = Annotation(caption: string, tail: Point, head: Option<Point>, color: int)

  /** The character of decimal digit k. */
  function DigitChar(k: nat): char
    requires k < 10
  {
    ('0' as int + k) as char
  }

  /** `str(n)`. */
  function DecimalString(n: nat): (s: string)
    ensures |s| >= 1
    decreases n
  {
    if n < 10 then [DigitChar(n)] else DecimalString(n / 10) + [DigitChar(n % 10)]
  }

  /** The number a string of decimal digits denotes, as `int(s)` reads it. */
  function DecimalValue(s: string): int
  {
    if |s| == 0 then 0 else DecimalValue(s[..|s| - 1]) * 10 + (s[|s| - 1] as int - '0' as int)
  }

  /** `str(n)` is made of digits, has no leading zero unless n is 0, and reads back as n. */
  lemma {:induction false} DecimalRoundTrip(n: nat)
    ensures var s := DecimalString(n);
      (forall i :: 0 <= i < |s| ==> '0' <= s[i] <= '9')
      && (n > 0 ==> s[0] != '0')
      && DecimalValue(s) == n
    decreases n
  {
    var s := DecimalString(n);
    if n < 10 {
      assert s[..|s| - 1] == [];
    } else {
      DecimalRoundTrip(n / 10);
      assert s[..|s| - 1] == DecimalString(n / 10);
    }
  }

  /** `str(results[i].num) + '.' + results[i].caption`. */
  function CaptionOf(r: CheckResult): string
  {
    DecimalString(r.num) + "." + r.caption
  }

  /** The finding positions the leaders start from. */
  function Heads(results: seq<CheckResult>, count: nat): (hs: seq<Point>)
    requires count <= |results| && forall i :: 0 <= i < count ==> results[i].pos.Some?
    ensures |hs| == count
  {
    seq(count, i requires 0 <= i < count => results[i].pos.value)
  }

  /** Annotation i: finding i's caption in slot idx[i], pointing at finding i. */
  function Arrowed(results: seq<CheckResult>, heads: seq<Point>, tails: seq<Point>, idx: seq<nat>): (a: seq<Annotation>)
    requires |idx| <= |heads| <= |results| && forall i :: 0 <= i < |idx| ==> idx[i] < |tails|
    ensures |a| == |idx|
  {
    seq(|idx|, i requires 0 <= i < |idx| =>
      Annotation(CaptionOf(results[i]), tails[idx[i]], Some(heads[i]), results[i].color))
  }

  /** Some annotation has slot t. */
  ghost predicate SlotUsed(a: seq<Annotation>, t: Point)
  {
    exists i :: 0 <= i < |a| && a[i].tail == t
  }

  /** Routed annotations fill every slot and point each finding's caption at that finding. */
  lemma ArrowedSlots(results: seq<CheckResult>, heads: seq<Point>, tails: seq<Point>, idx: seq<nat>)
    requires |heads| <= |results| && Routing(heads, tails, idx)
    ensures var a := Arrowed(results, heads, tails, idx);
      |a| == |heads| == |tails|
      && (forall s :: 0 <= s < |tails| ==> SlotUsed(a, tails[s]))
      && (forall i :: 0 <= i < |a| ==> a[i].head == Some(heads[i]) && a[i].caption == CaptionOf(results[i]))
  {
    var a := Arrowed(results, heads, tails, idx);
    assert IsPermutation(idx, |heads|);
    forall s | 0 <= s < |tails|
      ensures SlotUsed(a, tails[s])
    {
      InjectiveOnto(idx, |tails|, s);
      var i :| 0 <= i < |idx| && idx[i] == s;
      assert a[i].tail == tails[s];
    }

  }

  /** No two leaders of routed annotations cross. */
  lemma ArrowedNonCrossing(results: seq<CheckResult>, heads: seq<Point>, tails: seq<Point>, idx: seq<nat>)
    requires |heads| <= |results| && Routing(heads, tails, idx)
    ensures var a := Arrowed(results, heads, tails, idx);
      forall i, j :: 0 <= i < j < |a| ==>
        !IsCross(Line(a[i].head.value, a[i].tail), Line(a[j].head.value, a[j].tail))
  {
    var a := Arrowed(results, heads, tails, idx);
    forall i, j | 0 <= i < j < |a|
      ensures !IsCross(Line(a[i].head.value, a[i].tail), Line(a[j].head.value, a[j].tail))
    {
      assert Line(a[i].head.value, a[i].tail) == Segment(heads, tails, idx, i);
      assert Line(a[j].head.value, a[j].tail) == Segment(heads, tails, idx, j);
    }
  }

  /** Annotation i: finding i's caption at point i, with no leader. */
  function Listed(results: seq<CheckResult>, pts: seq<Point>): (a: seq<Annotation>)
    requires |pts| <= |results|
    ensures |a| == |pts|
  {
    seq(|pts|, i requires 0 <= i < |pts| => Annotation(CaptionOf(results[i]), pts[i], None, results[i].color))
  }

  // ------------------------------------------------------------------ areas

  /**
   * The shared body of `__draw_upper_area` and `__draw_right_area`: route
   * the first |tails| findings to the tails and place their captions.  When
   * no routing exists the source indexes the `None` the router returns.
   */
  method ArrowArea(results: seq<CheckResult>, tails: seq<Point>) returns (idx: Option<seq<nat>>, ann: seq<Annotation>)
    requires |tails| <= |results| && forall i :: 0 <= i < |tails| ==> results[i].pos.Some?
    ensures var heads := Heads(results, |tails|);
      (idx.None? ==> ann == [] && forall p :: !Routing(heads, tails, p))
      && (idx.Some? ==>
            (Routing(heads, tails, idx.value)
             && (forall p :: Routing(heads, tails, p) ==> !LexLess(p, idx.value))
             && ann == Arrowed(results, heads, tails, idx.value)))
  {
    var count := |tails|;
    var heads := Heads(results, count);
    idx := Analyze(heads, tails);
    ann := [];
    if idx.None? {
      return;
    }
    var index := idx.value;
    assert IsPermutation(index, count);
    for i := 0 to count
      invariant ann == Arrowed(results, heads, tails, index[..i])
    {
      ann := ann + [Annotation(CaptionOf(results[i]), tails[index[i]], Some(heads[i]), results[i].color)];
    }
    assert index[..count] == index;
  }

  /** `__draw_upper_area`: the tails above the box, x at 2/5 of the way from right to left. */
  method DrawUpperArea(bb: Box, ls: real, results: seq<CheckResult>, maxCount: Option<nat>)
    returns (idx: Option<seq<nat>>, ann: seq<Annotation>)
    requires forall r :: r in results ==> r.pos.Some?
    ensures var count := DrawCount(maxCount, |results|);
      var heads, tails := Heads(results, count), UpperTails(bb, ls, count);
      (idx.None? ==> ann == [] && forall p :: !Routing(heads, tails, p))
      && (idx.Some? ==>
            (Routing(heads, tails, idx.value)
             && (forall p :: Routing(heads, tails, p) ==> !LexLess(p, idx.value))
             && ann == Arrowed(results, heads, tails, idx.value)))
  {
    var count := DrawCount(maxCount, |results|);
    if count == 0 {
      return Some([]), [];
    }
    var tails := UpperTails(bb, ls, count);
    idx, ann := ArrowArea(results, tails);
  }

  /** `__draw_right_area`: the tails right of the box, going down from its top. */
  method DrawRightArea(bb: Box, ls: real, results: seq<CheckResult>, maxCount: Option<nat>)
    returns (idx: Option<seq<nat>>, ann: seq<Annotation>)
    requires forall r :: r in results ==> r.pos.Some?
    ensures var count := DrawCount(maxCount, |results|);
      var heads, tails := Heads(results, count), RightTails(bb, ls, count);
      (idx.None? ==> ann == [] && forall p :: !Routing(heads, tails, p))
      && (idx.Some? ==>
            (Routing(heads, tails, idx.value)
             && (forall p :: Routing(heads, tails, p) ==> !LexLess(p, idx.value))
             && ann == Arrowed(results, heads, tails, idx.value)))
  {
    var count := DrawCount(maxCount, |results|);
    if count == 0 {
      return Some([]), [];
    }
    var tails := RightTails(bb, ls, count);
    idx, ann := ArrowArea(results, tails);
  }

  /** `__draw_bottom_area`: captions only, down the left edge below the box. */
  method DrawBottomArea(bb: Box, ls: real, results: seq<CheckResult>, maxCount: Option<nat>)
    returns (ann: seq<Annotation>)
    ensures var count := DrawCount(maxCount, |results|);
      ann == Listed(results, BottomPoints(bb, ls, count))
  {
    var count := DrawCount(maxCount, |results|);
    ann := [];
    if count == 0 {
      return;
    }
    var pts := BottomPoints(bb, ls, count);
    for i := 0 to count
      invariant ann == Listed(results, pts[..i])
    {
      ann := ann + [Annotation(CaptionOf(results[i]), pts[i], None, results[i].color)];
    }
    assert pts[..count] == pts;
  }

  // -------------------------------------------------------------- summarize

  /** The sizes `summarize` derives from the scale factor, and the three areas' annotations. */
  datatype Summary = Summary(
    scale: real, fontSize: real, lineSpace: real, lineWidth: real,
    upper: seq<Annotation>, right: seq<Annotation>, bottom: seq<Annotation>)

  /** An arrowed area: every finding positioned, routed by the least non-crossing routing, and placed. */
  ghost predicate ArrowedArea(ann: seq<Annotation>, rs: seq<CheckResult>, tails: seq<Point>)
  {
    |rs| == |tails| && (forall i :: 0 <= i < |rs| ==> rs[i].pos.Some?)
    && exists idx ::
      Routing(Heads(rs, |rs|), tails, idx)
      && (forall p :: Routing(Heads(rs, |rs|), tails, p) ==> !LexLess(p, idx))
      && ann == Arrowed(rs, Heads(rs, |rs|), tails, idx)
  }

  /**
   * The summary of `results` over box b at scale sf: the sizes scaled, the
   * upper and right areas arrowed and the bottom area listed.
   */
  ghost predicate SummaryOf(b: Box, sf: real, results: seq<CheckResult>, sm: Summary)
  {
    var up, rt, non := Select(b, results, Upper), Select(b, results, Right), Select(b, results, Non);
    sm.scale == sf && sm.fontSize == BaseFontSize * sf
    && sm.lineSpace == BaseLineSpace * sf && sm.lineWidth == BaseLineWidth * sf
    && ArrowedArea(sm.upper, up, UpperTails(b, sm.lineSpace, |up|))
    && ArrowedArea(sm.right, rt, RightTails(b, sm.lineSpace, |rt|))
    && sm.bottom == Listed(non, BottomPoints(b, sm.lineSpace, |non|))
  }

  /** The upper or the right area of box b at line space ls has no non-crossing routing. */
  ghost predicate NoRouting(b: Box, ls: real, results: seq<CheckResult>)
  {
    var up, rt := Select(b, results, Upper), Select(b, results, Right);
    (forall p :: !Routing(Heads(up, |up|), UpperTails(b, ls, |up|), p))
    || (forall p :: !Routing(Heads(rt, |rt|), RightTails(b, ls, |rt|), p))
  }

  /**
   * `summarize`: box, scale, split, then the three areas (with no count
   * limit).  No box, or no non-crossing routing for the upper or the right
   * area, is where the source raises; the model returns no summary there.
   */
  method Summarize(lib: Lib, es: seq<Entity>, results: seq<CheckResult>) returns (bb: Option<Box>, s: Option<Summary>)
    requires forall e :: e in es ==> Boxable(e)
    ensures bb.None? <==> forall e :: e in es ==> GetBB(lib, e).None?
    ensures bb.None? ==> s.None?
    ensures s.Some? ==> bb.Some? && SummaryOf(bb.value, ScaleFactor(bb), results, s.value)
    ensures s.None? && bb.Some? ==> NoRouting(bb.value, BaseLineSpace * ScaleFactor(bb), results)
  {
    bb := DrawingBB(lib, es);
    if bb.None? {
      return bb, None;
    }
    s := ScaledSummary(bb.value, ScaleFactor(bb), results);
  }

  /** The sizes scaled by `sf` and the three areas, or None where a routing does not exist. */
  method ScaledSummary(b: Box, sf: real, results: seq<CheckResult>) returns (s: Option<Summary>)
    ensures s.Some? ==> SummaryOf(b, sf, results, s.value)
    ensures s.None? ==> NoRouting(b, BaseLineSpace * sf, results)
  {
    var areas := DrawAreas(b, BaseLineSpace * sf, results);
    if areas.None? {
      return None;
    }
    s := Some(Summary(sf, BaseFontSize * sf, BaseLineSpace * sf, BaseLineWidth * sf,
                      areas.value.0, areas.value.1, areas.value.2));
  }

  /** The split and the three areas of `summarize` for box b and line space ls. */
  method DrawAreas(b: Box, ls: real, results: seq<CheckResult>)
    returns (areas: Option<(seq<Annotation>, seq<Annotation>, seq<Annotation>)>)
    ensures var up, rt, non := Select(b, results, Upper), Select(b, results, Right), Select(b, results, Non);
      (areas.Some? ==>
         ArrowedArea(areas.value.0, up, UpperTails(b, ls, |up|))
         && ArrowedArea(areas.value.1, rt, RightTails(b, ls, |rt|))
         && areas.value.2 == Listed(non, BottomPoints(b, ls, |non|)))
      && (areas.None? ==> NoRouting(b, ls, results))
  {
    var upper, right, non := SplitToUpperRightNon(b, results);
    var idxU, annU := DrawUpperArea(b, ls, upper, None);
    if idxU.None? {
      return None;
    }
    var idxR, annR := DrawRightArea(b, ls, right, None);
    if idxR.None? {
      return None;
    }
    var annB := DrawBottomArea(b, ls, non, None);
    areas := Some((annU, annR, annB));
    if |upper| == 0 {
      assert annU == Arrowed(upper, Heads(upper, 0), UpperTails(b, ls, 0), []);
    }
    if |right| == 0 {
      assert annR == Arrowed(right, Heads(right, 0), RightTails(b, ls, 0), []);
    }
  }

  /**
   * A summary places every finding exactly once: the three areas hold as
   * many captions as there are findings, position-less ones exactly in the
   * bottom list, and within an arrowed area no two leaders cross.
   */
  lemma SummarySound(b: Box, results: seq<CheckResult>, sm: Summary)
    requires ArrowedArea(sm.upper, Select(b, results, Upper), UpperTails(b, sm.lineSpace, |Select(b, results, Upper)|))
    requires ArrowedArea(sm.right, Select(b, results, Right), RightTails(b, sm.lineSpace, |Select(b, results, Right)|))
    requires sm.bottom == Listed(Select(b, results, Non), BottomPoints(b, sm.lineSpace, |Select(b, results, Non)|))
    ensures |sm.upper| + |sm.right| + |sm.bottom| == |results|
    ensures forall i :: 0 <= i < |sm.bottom| ==> sm.bottom[i].head.None?
    ensures forall a :: a in sm.upper + sm.right ==> a.head.Some?
    ensures forall i, j :: 0 <= i < j < |sm.upper| ==>
      !IsCross(Line(sm.upper[i].head.value, sm.upper[i].tail), Line(sm.upper[j].head.value, sm.upper[j].tail))
    ensures forall i, j :: 0 <= i < j < |sm.right| ==>
      !IsCross(Line(sm.right[i].head.value, sm.right[i].tail), Line(sm.right[j].head.value, sm.right[j].tail))
  {
    SelectPartition(b, results);
    var up, rt := Select(b, results, Upper), Select(b, results, Right);
    ArrowedAreaSound(sm.upper, up, UpperTails(b, sm.lineSpace, |up|));
    ArrowedAreaSound(sm.right, rt, RightTails(b, sm.lineSpace, |rt|));
  }

  /** An arrowed area has one caption per finding, each with a leader, and no two leaders cross. */
  lemma ArrowedAreaSound(ann: seq<Annotation>, rs: seq<CheckResult>, tails: seq<Point>)
    requires ArrowedArea(ann, rs, tails)
    ensures |ann| == |rs|
    ensures forall i :: 0 <= i < |ann| ==> ann[i].head.Some?
    ensures forall i, j :: 0 <= i < j < |ann| ==>
      !IsCross(Line(ann[i].head.value, ann[i].tail), Line(ann[j].head.value, ann[j].tail))
  {
    var idx :| Routing(Heads(rs, |rs|), tails, idx) && ann == Arrowed(rs, Heads(rs, |rs|), tails, idx);
    ArrowedNonCrossing(rs, Heads(rs, |rs|), tails, idx);
  }
}
