/**
 * The leader-line router: pairs every finding point of `ps1` with a label
 * slot of `ps2` so that no two connecting segments strictly cross, by a
 * depth-first search over an explicit stack of candidate lists.
 */
module NonCrossLines {
  import opened Geometry

  /** Orientation of `c` against the directed line a->b (twice the signed triangle area). */
  function Orient(a: Point, b: Point, c: Point): real
  {
    (b.x - a.x) * (c.y - a.y) - (c.x - a.x) * (b.y - a.y)
  }

  /**
   * is_cross: the segments cross iff each one's endpoints lie strictly on
   * opposite sides of the other's supporting line.
   */
  predicate IsCross(l1: Line, l2: Line)
  {
    var s := Orient(l1.start, l1.end, l2.start);
    var t := Orient(l1.start, l1.end, l2.end);
    if s * t >= 0.0 then false
    else
      var s2 := Orient(l2.start, l2.end, l1.start);
      var t2 := Orient(l2.start, l2.end, l1.end);
      if s2 * t2 >= 0.0 then false else true
  }

  function Reversed(l: Line): Line { Line(l.end, l.start) }

  lemma OrientSwap(a: Point, b: Point, c: Point)
    ensures Orient(b, a, c) == -Orient(a, b, c)
  {
    calc {
      Orient(b, a, c);
      (a.x - b.x) * (c.y - b.y) - (c.x - b.x) * (a.y - b.y);
      { assert c.y - b.y == (c.y - a.y) + (a.y - b.y);
        assert c.x - b.x == (c.x - a.x) + (a.x - b.x); }
      (a.x - b.x) * ((c.y - a.y) + (a.y - b.y)) - ((c.x - a.x) + (a.x - b.x)) * (a.y - b.y);
      -Orient(a, b, c);
    }
  }

  lemma ProductUnderNegation(s: real, t: real)
    ensures (-s) * (-t) == s * t && (-s) * t == -(s * t) && s * (-t) == -(s * t)
  {
  }

  /** Swapping the two segments does not change the answer. */
  lemma IsCrossSymmetric(l1: Line, l2: Line)
    ensures IsCross(l1, l2) == IsCross(l2, l1)
  {
  }

  /** Reversing either segment does not change the answer. */
  lemma IsCrossReversal(l1: Line, l2: Line)
    ensures IsCross(Reversed(l1), l2) == IsCross(l1, l2)
    ensures IsCross(l1, Reversed(l2)) == IsCross(l1, l2)
  {
    var a, b, c, d := l1.start, l1.end, l2.start, l2.end;
    OrientSwap(a, b, c);
    OrientSwap(a, b, d);
    OrientSwap(c, d, a);
    OrientSwap(c, d, b);
    ProductUnderNegation(Orient(a, b, c), Orient(a, b, d));
    ProductUnderNegation(Orient(c, d, a), Orient(c, d, b));
  }

  /** Strictness: an endpoint collinear with the other segment (touching, shared endpoint) is never a crossing. */
  lemma CollinearEndpointNeverCrosses(l1: Line, l2: Line)
    requires Orient(l1.start, l1.end, l2.start) == 0.0 || Orient(l1.start, l1.end, l2.end) == 0.0
          || Orient(l2.start, l2.end, l1.start) == 0.0 || Orient(l2.start, l2.end, l1.end) == 0.0
    ensures !IsCross(l1, l2)
  {
  }

  lemma SharedEndpointNeverCrosses(l1: Line, l2: Line)
    requires l1.start == l2.start || l1.start == l2.end || l1.end == l2.start || l1.end == l2.end
    ensures !IsCross(l1, l2)
  {
    if l1.start == l2.start || l1.end == l2.start {
      assert Orient(l1.start, l1.end, l2.start) == 0.0;
    } else {
      assert Orient(l1.start, l1.end, l2.end) == 0.0;
    }
    CollinearEndpointNeverCrosses(l1, l2);
  }

  // ----- specification of a routing -----

  /** `p` is a permutation of 0..n-1. */
  predicate IsPermutation(p: seq<nat>, n: nat)
  {
    |p| == n && (forall i :: 0 <= i < |p| ==> p[i] < n)
    && (forall i, j :: 0 <= i < j < |p| ==> p[i] != p[j])
  }

  /** The segment from the k-th finding point to its assigned slot. */
  function Segment(ps1: seq<Point>, ps2: seq<Point>, p: seq<nat>, k: nat): Line
    requires k < |p| && k < |ps1| && p[k] < |ps2|
  {
    Line(ps1[k], ps2[p[k]])
  }

  /** A permutation whose segments pairwise avoid the relation `cr`. */
  predicate RoutingBy(cr: (Line, Line) -> bool, ps1: seq<Point>, ps2: seq<Point>, p: seq<nat>)
  {
    |ps1| == |ps2| && IsPermutation(p, |ps1|)
    && forall i, j :: 0 <= i < j < |p| ==> !cr(Segment(ps1, ps2, p, i), Segment(ps1, ps2, p, j))
  }

  /** A non-crossing routing: a permutation whose segments pairwise do not cross. */
  predicate Routing(ps1: seq<Point>, ps2: seq<Point>, p: seq<nat>)
  {
    RoutingBy(IsCross, ps1, ps2, p)
  }

  /** `a` and `b` agree on their first k entries. */
  predicate SamePrefix(a: seq<nat>, b: seq<nat>, k: nat)
    requires k <= |a| && k <= |b|
  {
    forall j :: 0 <= j < k ==> a[j] == b[j]
  }

  /** Lexicographic order, compared on the positions both sequences have. */
  predicate LexLess(a: seq<nat>, b: seq<nat>)
  {
    exists k :: 0 <= k < |a| && k < |b| && SamePrefix(a, b, k) && a[k] < b[k]
  }

  // ----- candidate lists -----

  /** range(lo, n) minus the members of `u`, in ascending order. */
  function Cands(u: seq<nat>, lo: nat, n: nat): seq<nat>
    decreases n - lo
  {
    if lo >= n then [] else if lo in u then Cands(u, lo + 1, n) else [lo] + Cands(u, lo + 1, n)
  }

  /** list(range(lo, n)) */
  function Range(lo: nat, n: nat): seq<nat>
    decreases n - lo
  {
    if lo >= n then [] else [lo] + Range(lo + 1, n)
  }

  /** list.remove: drop the first occurrence of `v`. */
  function Remove(s: seq<nat>, v: nat): seq<nat>
  {
    if s == [] then [] else if s[0] == v then s[1..] else [s[0]] + Remove(s[1..], v)
  }

  lemma {:induction false} CandsMembers(u: seq<nat>, lo: nat, n: nat)
    ensures forall v :: v in Cands(u, lo, n) <==> lo <= v < n && v !in u
    ensures |Cands(u, lo, n)| <= if lo <= n then n - lo else 0
    ensures forall i :: 0 <= i < |Cands(u, lo, n)| ==> lo <= Cands(u, lo, n)[i]
    decreases n - lo
  {
    if lo < n {
      CandsMembers(u, lo + 1, n);
    }
  }

  /** The head is the least candidate, and popping it leaves the candidates above it. */
  lemma CandsHead(u: seq<nat>, lo: nat, n: nat)
    requires |Cands(u, lo, n)| > 0
    ensures var c := Cands(u, lo, n); c[1..] == Cands(u, c[0] + 1, n)
    ensures forall v :: lo <= v < n && v !in u ==> Cands(u, lo, n)[0] <= v
    decreases n - lo
  {
    CandsMembers(u, lo, n);
    if lo in u {
      CandsHead(u, lo + 1, n);
    }
  }

  lemma {:induction false} RangeIsCands(lo: nat, n: nat)
    ensures Range(lo, n) == Cands([], lo, n)
    decreases n - lo
  {
    if lo < n {
      RangeIsCands(lo + 1, n);
    }
  }

  lemma {:induction false} CandsIgnoresSmall(u: seq<nat>, v: nat, lo: nat, n: nat)
    requires v < lo
    ensures Cands(u + [v], lo, n) == Cands(u, lo, n)
    decreases n - lo
  {
    if lo < n {
      assert lo in u + [v] <==> lo in u;
      CandsIgnoresSmall(u, v, lo + 1, n);
    }
  }

  /** Removing a fresh index from the candidates is the same as marking it used. */
  lemma {:induction false} RemoveCands(u: seq<nat>, v: nat, lo: nat, n: nat)
    requires v !in u && lo <= v
    ensures Remove(Cands(u, lo, n), v) == Cands(u + [v], lo, n)
    decreases n - lo
  {
    if lo < n {
      assert lo in u + [v] <==> lo in u || lo == v;
      if lo in u {
        RemoveCands(u, v, lo + 1, n);
      } else if lo == v {
        CandsIgnoresSmall(u, v, lo + 1, n);
      } else {
        RemoveCands(u, v, lo + 1, n);
      }
    } else {
      assert Cands(u, lo, n) == [];
    }
  }

  // ----- termination measure -----

  /** Length of the k-th candidate list, or n + 1 for a level not yet on the stack. */
  function Digit(x: seq<seq<nat>>, k: nat, n: nat): nat
  {
    if k < |x| then |x[k]| else n + 1
  }

  function Pow(b: nat, e: nat): nat { if e == 0 then 1 else b * Pow(b, e - 1) }

  /** The stack read as a number in base n + 2, level 0 most significant. */
  function RankFrom(x: seq<seq<nat>>, k: nat, n: nat): nat
    decreases n + 1 - k
  {
    if k > n then 0 else Digit(x, k, n) * Pow(n + 2, n - k) + RankFrom(x, k + 1, n)
  }

  function Rank(x: seq<seq<nat>>, n: nat): nat { RankFrom(x, 0, n) }

  ghost predicate DigitsBounded(x: seq<seq<nat>>, n: nat)
  {
    forall k :: 0 <= k < |x| ==> |x[k]| <= n + 1
  }

  lemma MulMono(a: nat, b: nat, c: nat)
    requires a <= b
    ensures a * c <= b * c
  {
  }

  lemma MulSucc(a: nat, c: nat)
    ensures (a + 1) * c == a * c + c
  {
  }

  lemma {:induction false} RankFromBound(x: seq<seq<nat>>, k: nat, n: nat)
    requires DigitsBounded(x, n) && k <= n + 1
    ensures RankFrom(x, k, n) < Pow(n + 2, n + 1 - k)
    decreases n + 1 - k
  {
    if k <= n {
      RankFromBound(x, k + 1, n);
      var p := Pow(n + 2, n - k);
      var d := Digit(x, k, n);
      assert RankFrom(x, k, n) == d * p + RankFrom(x, k + 1, n);
      MulMono(d, n + 1, p);
      MulSucc(n + 1, p);
      assert Pow(n + 2, n + 1 - k) == (n + 2) * p;
    }
  }

  lemma {:induction false} RankFromAgree(x: seq<seq<nat>>, y: seq<seq<nat>>, j: nat, k: nat, n: nat)
    requires j <= k <= n
    requires forall i :: 0 <= i < k ==> Digit(y, i, n) == Digit(x, i, n)
    requires RankFrom(y, k, n) < RankFrom(x, k, n)
    ensures RankFrom(y, j, n) < RankFrom(x, j, n)
    decreases k - j
  {
    if j < k {
      RankFromAgree(x, y, j + 1, k, n);
      assert Digit(y, j, n) == Digit(x, j, n);
    }
  }

  /** A stack that agrees below level k and is shorter at level k has a smaller rank. */
  lemma RankDecreases(x: seq<seq<nat>>, y: seq<seq<nat>>, k: nat, n: nat)
    requires DigitsBounded(x, n) && DigitsBounded(y, n) && k <= n
    requires forall j :: 0 <= j < k ==> Digit(y, j, n) == Digit(x, j, n)
    requires Digit(y, k, n) < Digit(x, k, n)
    ensures Rank(y, n) < Rank(x, n)
  {
    var p := Pow(n + 2, n - k);
    var dy, dx := Digit(y, k, n), Digit(x, k, n);
    RankFromBound(y, k + 1, n);
    assert RankFrom(y, k, n) == dy * p + RankFrom(y, k + 1, n);
    assert RankFrom(x, k, n) == dx * p + RankFrom(x, k + 1, n);
    MulSucc(dy, p);
    MulMono(dy + 1, dx, p);
    RankFromAgree(x, y, 0, k, n);
  }

  /** Pushing a level shorter than n + 1 lowers the rank. */
  lemma RankPush(x: seq<seq<nat>>, c: seq<nat>, n: nat)
    requires DigitsBounded(x, n) && |x| <= n && |c| <= n
    ensures Rank(x + [c], n) < Rank(x, n)
  {
    var y := x + [c];
    assert forall j :: 0 <= j < |x| ==> y[j] == x[j];
    RankDecreases(x, y, |x|, n);
  }

  /** Dropping the head of level j and every level above it lowers the rank. */
  lemma RankPopHead(x: seq<seq<nat>>, j: nat, n: nat)
    requires DigitsBounded(x, n) && j < |x| && j <= n && |x[j]| > 0
    ensures Rank(x[..j] + [x[j][1..]], n) < Rank(x, n)
  {
    var y := x[..j] + [x[j][1..]];
    assert forall i :: 0 <= i < j ==> y[i] == x[i];
    RankDecreases(x, y, j, n);
  }

  // ----- the search -----

  /**
   * The frontier of the search: no routing is lexicographically below the
   * committed `index`, and a routing that extends `index` continues at `lo` or above.
   */
  ghost predicate Frontier(cr: (Line, Line) -> bool, ps1: seq<Point>, ps2: seq<Point>, index: seq<nat>, lo: nat)
  {
    forall p :: RoutingBy(cr, ps1, ps2, p) ==>
      !LexLess(p, index) && (|index| < |p| && SamePrefix(p, index, |index|) ==> lo <= p[|index|])
  }

  lemma SamePrefixStep(a: seq<nat>, b: seq<nat>, k: nat)
    requires k < |a| && k < |b|
    ensures SamePrefix(a, b, k) && a[k] == b[k] ==> SamePrefix(a, b, k + 1)
  {
  }

  lemma LexAt(a: seq<nat>, b: seq<nat>, k: nat)
    requires k < |a| && k < |b|
    ensures SamePrefix(a, b, k) && a[k] < b[k] ==> LexLess(a, b)
  {
  }

  lemma LexExtend(p: seq<nat>, index: seq<nat>, h: nat)
    requires |index| < |p|
    ensures LexLess(p, index + [h]) ==>
      LexLess(p, index) || (SamePrefix(p, index, |index|) && p[|index|] < h)
  {
    if LexLess(p, index + [h]) {
      var k :| 0 <= k < |p| && k < |index| + 1 && SamePrefix(p, index + [h], k) && p[k] < (index + [h])[k];
      assert SamePrefix(p, index, k);
      if k < |index| {
        LexAt(p, index, k);
      }
    }
  }

  lemma LexTruncate(p: seq<nat>, index: seq<nat>)
    requires 0 < |index| <= |p|
    ensures LexLess(p, index[..|index| - 1]) ==> LexLess(p, index)
    ensures SamePrefix(p, index[..|index| - 1], |index| - 1) ==> SamePrefix(p, index, |index| - 1)
  {
    var up := index[..|index| - 1];
    if LexLess(p, up) {
      var k :| 0 <= k < |p| && k < |up| && SamePrefix(p, up, k) && p[k] < up[k];
      assert SamePrefix(p, index, k);
      LexAt(p, index, k);
    }
  }

  /** A routing that extends `index` uses a fresh index next. */
  lemma NextIsFresh(cr: (Line, Line) -> bool, ps1: seq<Point>, ps2: seq<Point>, p: seq<nat>, index: seq<nat>)
    requires RoutingBy(cr, ps1, ps2, p) && |index| < |p|
    ensures SamePrefix(p, index, |index|) ==> p[|index|] !in index && p[|index|] < |ps1|
  {
    var d := |index|;
    assert forall i :: 0 <= i < d ==> p[i] != p[d];
  }

  /** Committing the least candidate `h` keeps the frontier, one level deeper. */
  lemma FrontierPush(cr: (Line, Line) -> bool, ps1: seq<Point>, ps2: seq<Point>, index: seq<nat>, lo: nat, h: nat)
    requires forall v :: lo <= v < |ps1| && v !in index ==> h <= v
    requires Frontier(cr, ps1, ps2, index, lo)
    ensures Frontier(cr, ps1, ps2, index + [h], 0)
  {
    forall p | RoutingBy(cr, ps1, ps2, p)
      ensures !LexLess(p, index + [h])
    {
      if |index| < |p| {
        LexExtend(p, index, h);
        NextIsFresh(cr, ps1, ps2, p, index);
      } else {
        assert forall k :: 0 <= k < |p| && k < |index| + 1 ==> (index + [h])[k] == index[k];
      }
    }
  }

  /** Dropping the least candidate `h`, whose segment crosses committed segment m, keeps the frontier. */
  lemma FrontierSkip(cr: (Line, Line) -> bool, ps1: seq<Point>, ps2: seq<Point>, index: seq<nat>, lo: nat, h: nat, m: nat)
    requires |ps1| == |ps2| && m < |index| < |ps1| && index[m] < |ps2| && h < |ps2|
    requires forall v :: lo <= v < |ps1| && v !in index ==> h <= v
    requires Frontier(cr, ps1, ps2, index, lo)
    requires cr(Line(ps1[m], ps2[index[m]]), Line(ps1[|index|], ps2[h]))
    ensures Frontier(cr, ps1, ps2, index, h + 1)
  {
    var d := |index|;
    forall p | RoutingBy(cr, ps1, ps2, p) && d < |p| && SamePrefix(p, index, d)
      ensures h + 1 <= p[d]
    {
      NextIsFresh(cr, ps1, ps2, p, index);
      assert p[m] == index[m];
      assert !cr(Segment(ps1, ps2, p, m), Segment(ps1, ps2, p, d));
    }
  }

  /** A level with no candidates left rules out its whole prefix: the frontier moves up a level. */
  lemma FrontierBacktrack(cr: (Line, Line) -> bool, ps1: seq<Point>, ps2: seq<Point>, index: seq<nat>, lo: nat)
    requires 0 < |index| < |ps1|
    requires forall v :: lo <= v < |ps1| ==> v in index
    requires Frontier(cr, ps1, ps2, index, lo)
    ensures Frontier(cr, ps1, ps2, index[..|index| - 1], index[|index| - 1] + 1)
  {
    var d := |index|;
    var up := index[..d - 1];
    forall p | RoutingBy(cr, ps1, ps2, p)
      ensures !LexLess(p, up)
      ensures d - 1 < |p| && SamePrefix(p, up, d - 1) ==> index[d - 1] + 1 <= p[d - 1]
    {
      LexTruncate(p, index);
      LexAt(p, index, d - 1);
      NextIsFresh(cr, ps1, ps2, p, index);
      SamePrefixStep(p, index, d - 1);
    }
  }

  /** With no candidate left at level 0 there is no routing at all. */
  lemma FrontierExhausted(cr: (Line, Line) -> bool, ps1: seq<Point>, ps2: seq<Point>, lo: nat)
    requires 0 < |ps1| && Cands([], lo, |ps1|) == []
    requires Frontier(cr, ps1, ps2, [], lo)
    ensures forall p :: !RoutingBy(cr, ps1, ps2, p)
  {
    CandsMembers([], lo, |ps1|);
    forall p ensures RoutingBy(cr, ps1, ps2, p) ==> 0 < |p| && lo <= p[0] && p[0] < |ps1| {
      assert SamePrefix(p, [], 0);
    }
  }

  // ----- the stack of candidate lists -----

  /** Level k of the stack holds the unused indices from lo[k] upwards. */
  ghost predicate LevelOk(x: seq<seq<nat>>, index: seq<nat>, lo: seq<nat>, cnt: nat, k: nat)
    requires k < |x| && k < |lo| && k <= |index|
  {
    x[k] == Cands(index[..k], lo[k], cnt)
  }

  ghost predicate Levels(x: seq<seq<nat>>, index: seq<nat>, lo: seq<nat>, cnt: nat)
  {
    |x| == |lo| && |x| <= |index| + 1
    && forall k :: 0 <= k < |x| ==> LevelOk(x, index, lo, cnt, k)
  }

  /** The head of every committed level is the committed index. */
  ghost predicate Heads(x: seq<seq<nat>>, index: seq<nat>)
  {
    |index| <= |x| && forall k :: 0 <= k < |index| ==> |x[k]| > 0 && x[k][0] == index[k]
  }

  /** The committed segments: parallel to `index`, distinct slots, pairwise not crossing. */
  ghost predicate Committed(cr: (Line, Line) -> bool, ps1: seq<Point>, ps2: seq<Point>, index: seq<nat>, lines: seq<Line>)
  {
    |lines| == |index| <= |ps1| == |ps2|
    && (forall k :: 0 <= k < |index| ==> index[k] < |ps2| && lines[k] == Line(ps1[k], ps2[index[k]]))
    && (forall i, j :: 0 <= i < j < |index| ==> index[i] != index[j])
    && (forall i, j :: 0 <= i < j < |index| ==> !cr(lines[i], lines[j]))
  }

  lemma LevelsBounded(x: seq<seq<nat>>, index: seq<nat>, lo: seq<nat>, cnt: nat)
    requires Levels(x, index, lo, cnt)
    ensures DigitsBounded(x, cnt)
  {
    forall k | 0 <= k < |x| ensures |x[k]| <= cnt + 1 {
      assert LevelOk(x, index, lo, cnt, k);
      CandsMembers(index[..k], lo[k], cnt);
    }
  }

  lemma LevelsTop(x: seq<seq<nat>>, index: seq<nat>, lo: seq<nat>, cnt: nat)
    requires Levels(x, index, lo, cnt) && |x| == |index| + 1
    ensures x[|index|] == Cands(index, lo[|index|], cnt)
    ensures forall v :: v in x[|index|] <==> lo[|index|] <= v < cnt && v !in index
    ensures |x[|index|]| > 0 ==> forall v :: lo[|index|] <= v < cnt && v !in index ==> x[|index|][0] <= v
  {
    assert LevelOk(x, index, lo, cnt, |index|);
    assert index[..|index|] == index;
    CandsMembers(index, lo[|index|], cnt);
    if |x[|index|]| > 0 {
      CandsHead(index, lo[|index|], cnt);
    }
  }

  lemma LevelsPush(x: seq<seq<nat>>, index: seq<nat>, lo: seq<nat>, cnt: nat, h: nat)
    requires Levels(x, index, lo, cnt) && |x| == |index| + 1
    ensures Levels(x + [Cands(index + [h], 0, cnt)], index + [h], lo + [0], cnt)
  {
    var x', index', lo' := x + [Cands(index + [h], 0, cnt)], index + [h], lo + [0];
    forall k | 0 <= k < |x'| ensures LevelOk(x', index', lo', cnt, k) {
      if k < |x| {
        assert LevelOk(x, index, lo, cnt, k);
        assert index'[..k] == index[..k];
      } else {
        assert index'[..k] == index';
      }
    }
  }

  lemma LevelsPopHead(x: seq<seq<nat>>, index: seq<nat>, lo: seq<nat>, cnt: nat, j: nat)
    requires Levels(x, index, lo, cnt) && j < |x| && j <= |index| && |x[j]| > 0
    ensures Levels(x[..j] + [x[j][1..]], index[..j], lo[..j] + [x[j][0] + 1], cnt)
  {
    var x', index', lo' := x[..j] + [x[j][1..]], index[..j], lo[..j] + [x[j][0] + 1];
    assert LevelOk(x, index, lo, cnt, j);
    CandsHead(index[..j], lo[j], cnt);
    forall k | 0 <= k < |x'| ensures LevelOk(x', index', lo', cnt, k) {
      assert LevelOk(x, index, lo, cnt, k);
      assert index'[..k] == index[..k];
    }
  }

  lemma HeadsPush(x: seq<seq<nat>>, index: seq<nat>, c: seq<nat>)
    requires Heads(x, index) && |x| == |index| + 1 && |x[|index|]| > 0
    ensures Heads(x, index + [x[|index|][0]]) && Heads(x + [c], index + [x[|index|][0]])
  {
    var index' := index + [x[|index|][0]];
    forall k | 0 <= k < |index'| ensures |x[k]| > 0 && x[k][0] == index'[k] {
    }
    forall k | 0 <= k < |index'| ensures |(x + [c])[k]| > 0 && (x + [c])[k][0] == index'[k] {
      assert (x + [c])[k] == x[k];
    }
  }

  lemma HeadsPopTop(x: seq<seq<nat>>, index: seq<nat>, j: nat)
    requires Heads(x, index) && j < |x| && j <= |index| && |x[j]| > 0
    ensures Heads(x[..j] + [x[j][1..]], index[..j])
  {
    var x', index' := x[..j] + [x[j][1..]], index[..j];
    forall k | 0 <= k < |index'| ensures |x'[k]| > 0 && x'[k][0] == index'[k] {
      assert x'[k] == x[k];
    }
  }

  lemma CommittedPush(cr: (Line, Line) -> bool, ps1: seq<Point>, ps2: seq<Point>, index: seq<nat>, lines: seq<Line>, h: nat)
    requires Committed(cr, ps1, ps2, index, lines) && |index| < |ps1| && h < |ps2| && h !in index
    requires forall i :: 0 <= i < |lines| ==> !cr(lines[i], Line(ps1[|index|], ps2[h]))
    ensures Committed(cr, ps1, ps2, index + [h], lines + [Line(ps1[|index|], ps2[h])])
  {
  }

  lemma CommittedPop(cr: (Line, Line) -> bool, ps1: seq<Point>, ps2: seq<Point>, index: seq<nat>, lines: seq<Line>)
    requires Committed(cr, ps1, ps2, index, lines) && 0 < |index|
    ensures Committed(cr, ps1, ps2, index[..|index| - 1], lines[..|lines| - 1])
  {
  }

  /** One iteration's state: the stack, the committed segments and the frontier. */
  ghost predicate State(cr: (Line, Line) -> bool, ps1: seq<Point>, ps2: seq<Point>, x: seq<seq<nat>>,
                        index: seq<nat>, lines: seq<Line>, lo: seq<nat>)
  {
    |index| < |ps1| && |x| == |index| + 1
    && Levels(x, index, lo, |ps1|) && Heads(x, index) && Committed(cr, ps1, ps2, index, lines)
    && Frontier(cr, ps1, ps2, index, lo[|index|])
  }

  lemma InitialState(cr: (Line, Line) -> bool, ps1: seq<Point>, ps2: seq<Point>)
    requires |ps1| == |ps2| && |ps1| > 0
    ensures State(cr, ps1, ps2, [Range(0, |ps1|)], [], [], [0])
    ensures |Range(0, |ps1|)| > 0
  {
    var cnt := |ps1|;
    RangeIsCands(0, cnt);
    CandsMembers([], 0, cnt);
    assert 0 in Range(0, cnt);
    assert [Range(0, cnt)][0] == Cands([][..0], 0, cnt);
    assert LevelOk([Range(0, cnt)], [], [0], cnt, 0);
  }

  /** The candidates of a new level: range(cnt) minus the committed indices. */
  lemma PushList(x: seq<seq<nat>>, index: seq<nat>, k: nat, cnt: nat)
    requires |x| == |index| && k < |x| && Heads(x, index)
    requires forall i, j :: 0 <= i < j < |index| ==> index[i] != index[j]
    ensures Remove(Cands(index[..k], 0, cnt), x[k][0]) == Cands(index[..k + 1], 0, cnt)
  {
    assert index[..k + 1] == index[..k] + [index[k]];
    assert forall i :: 0 <= i < k ==> index[..k][i] != index[k];
    RemoveCands(index[..k], index[k], 0, cnt);
  }

  /** A head candidate that crosses no committed segment is committed. */
  lemma PushStep(cr: (Line, Line) -> bool, ps1: seq<Point>, ps2: seq<Point>, x: seq<seq<nat>>, index: seq<nat>,
                 lines: seq<Line>, lo: seq<nat>) returns (x': seq<seq<nat>>, index': seq<nat>, lines': seq<Line>, lo': seq<nat>)
    requires State(cr, ps1, ps2, x, index, lines, lo) && |x[|index|]| > 0
    requires x[|index|][0] < |ps2|
    requires forall i :: 0 <= i < |lines| ==> !cr(lines[i], Line(ps1[|index|], ps2[x[|index|][0]]))
    ensures index' == index + [x[|index|][0]] && lines' == lines + [Line(ps1[|index|], ps2[x[|index|][0]])]
    ensures x' == x + [Cands(index', 0, |ps1|)] && lo' == lo + [0]
    ensures Heads(x, index') && Committed(cr, ps1, ps2, index', lines')
    ensures |index'| < |ps1| ==> State(cr, ps1, ps2, x', index', lines', lo') && |x'[|index'|]| > 0
    ensures Frontier(cr, ps1, ps2, index', 0)
    ensures Rank(x', |ps1|) < Rank(x, |ps1|)
  {
    var cnt, d := |ps1|, |index|;
    var h := x[d][0];
    index' := index + [h];
    lines' := lines + [Line(ps1[d], ps2[h])];
    x' := x + [Cands(index', 0, cnt)];
    lo' := lo + [0];
    assert Frontier(cr, ps1, ps2, index', 0) && h !in index by {
      LevelsTop(x, index, lo, cnt);
      FrontierPush(cr, ps1, ps2, index, lo[d], h);
    }
    assert Levels(x', index', lo', cnt) by {
      LevelsPush(x, index, lo, cnt, h);
    }
    assert Heads(x, index') && Heads(x', index') by {
      HeadsPush(x, index, Cands(index', 0, cnt));
    }
    assert Committed(cr, ps1, ps2, index', lines') by {
      CommittedPush(cr, ps1, ps2, index, lines, h);
    }
    assert Rank(x', cnt) < Rank(x, cnt) by {
      LevelsBounded(x, index, lo, cnt);
      CandsMembers(index', 0, cnt);
      RankPush(x, Cands(index', 0, cnt), cnt);
    }
    if |index'| < cnt {
      FirstUnusedInCands(index', cnt);
    }
  }

  /** A head candidate that crosses committed segment m is dropped. */
  lemma SkipStep(cr: (Line, Line) -> bool, ps1: seq<Point>, ps2: seq<Point>, x: seq<seq<nat>>, index: seq<nat>,
                 lines: seq<Line>, lo: seq<nat>, m: nat) returns (x': seq<seq<nat>>, lo': seq<nat>)
    requires State(cr, ps1, ps2, x, index, lines, lo) && |x[|index|]| > 0
    requires x[|index|][0] < |ps2|
    requires m < |lines| && cr(lines[m], Line(ps1[|index|], ps2[x[|index|][0]]))
    ensures x' == x[..|index|] + [x[|index|][1..]] && lo' == lo[..|index|] + [x[|index|][0] + 1]
    ensures State(cr, ps1, ps2, x', index, lines, lo') && Rank(x', |ps1|) < Rank(x, |ps1|)
  {
    var cnt, d := |ps1|, |index|;
    var h := x[d][0];
    x' := x[..d] + [x[d][1..]];
    lo' := lo[..d] + [h + 1];
    LevelsTop(x, index, lo, cnt);
    FrontierSkip(cr, ps1, ps2, index, lo[d], h, m);
    LevelsPopHead(x, index, lo, cnt, d);
    assert index[..d] == index;
    HeadsPopTop(x, index, d);
    LevelsBounded(x, index, lo, cnt);
    RankPopHead(x, d, cnt);
  }

  /** An exhausted level is popped together with its committed segment. */
  lemma BacktrackStep(cr: (Line, Line) -> bool, ps1: seq<Point>, ps2: seq<Point>, x: seq<seq<nat>>, index: seq<nat>,
                      lines: seq<Line>, lo: seq<nat>) returns (x': seq<seq<nat>>, index': seq<nat>, lines': seq<Line>, lo': seq<nat>)
    requires State(cr, ps1, ps2, x, index, lines, lo) && |index| > 0 && x[|index|] == []
    ensures var d := |index|;
      x' == x[..d - 1] + [x[d - 1][1..]] && index' == index[..d - 1] && lines' == lines[..d - 1]
    ensures State(cr, ps1, ps2, x', index', lines', lo') && Rank(x', |ps1|) < Rank(x, |ps1|)
  {
    BacktrackShape(cr, ps1, ps2, x, index, lines, lo);
    x' := x[..|index| - 1] + [x[|index| - 1][1..]];
    index' := index[..|index| - 1];
    lines' := lines[..|index| - 1];
    lo' := lo[..|index| - 1] + [x[|index| - 1][0] + 1];
    BacktrackKeeps(cr, ps1, ps2, x, index, lines, lo);
    BacktrackRank(cr, ps1, ps2, x, index, lines, lo);
  }

  /** The popped state is again an iteration's state. */
  lemma BacktrackKeeps(cr: (Line, Line) -> bool, ps1: seq<Point>, ps2: seq<Point>, x: seq<seq<nat>>, index: seq<nat>,
                       lines: seq<Line>, lo: seq<nat>)
    requires State(cr, ps1, ps2, x, index, lines, lo) && |index| > 0 && x[|index|] == []
    requires |x[|index| - 1]| > 0 && |lo| == |index| + 1 && |lines| == |index|
    ensures var d := |index|;
      State(cr, ps1, ps2, x[..d - 1] + [x[d - 1][1..]], index[..d - 1], lines[..d - 1], lo[..d - 1] + [x[d - 1][0] + 1])
  {
    BacktrackFrontier(cr, ps1, ps2, x, index, lines, lo);
    BacktrackLevels(cr, ps1, ps2, x, index, lines, lo);
    BacktrackCommitted(cr, ps1, ps2, x, index, lines, lo);
  }

  /** The level below an exhausted one still has its head. */
  lemma BacktrackShape(cr: (Line, Line) -> bool, ps1: seq<Point>, ps2: seq<Point>, x: seq<seq<nat>>, index: seq<nat>,
                       lines: seq<Line>, lo: seq<nat>)
    requires State(cr, ps1, ps2, x, index, lines, lo) && |index| > 0 && x[|index|] == []
    ensures |x[|index| - 1]| > 0 && |lo| == |index| + 1 && |lines| == |index|
  {
    LevelsTop(x, index, lo, |ps1|);
    assert x[|index| - 1][0] == index[|index| - 1];
  }

  lemma BacktrackFrontier(cr: (Line, Line) -> bool, ps1: seq<Point>, ps2: seq<Point>, x: seq<seq<nat>>, index: seq<nat>,
                          lines: seq<Line>, lo: seq<nat>)
    requires State(cr, ps1, ps2, x, index, lines, lo) && |index| > 0 && x[|index|] == []
    requires |x[|index| - 1]| > 0
    ensures var d := |index|; Frontier(cr, ps1, ps2, index[..d - 1], x[d - 1][0] + 1)
  {
    LevelsTop(x, index, lo, |ps1|);
    FrontierBacktrack(cr, ps1, ps2, index, lo[|index|]);
  }

  lemma BacktrackLevels(cr: (Line, Line) -> bool, ps1: seq<Point>, ps2: seq<Point>, x: seq<seq<nat>>, index: seq<nat>,
                        lines: seq<Line>, lo: seq<nat>)
    requires State(cr, ps1, ps2, x, index, lines, lo) && |index| > 0 && x[|index|] == []
    requires |x[|index| - 1]| > 0 && |lo| == |index| + 1
    ensures var d := |index|;
      Levels(x[..d - 1] + [x[d - 1][1..]], index[..d - 1], lo[..d - 1] + [x[d - 1][0] + 1], |ps1|)
      && Heads(x[..d - 1] + [x[d - 1][1..]], index[..d - 1])
  {
    LevelsPopHead(x, index, lo, |ps1|, |index| - 1);
    HeadsPopTop(x, index, |index| - 1);
  }

  lemma BacktrackCommitted(cr: (Line, Line) -> bool, ps1: seq<Point>, ps2: seq<Point>, x: seq<seq<nat>>, index: seq<nat>,
                           lines: seq<Line>, lo: seq<nat>)
    requires State(cr, ps1, ps2, x, index, lines, lo) && |index| > 0
    ensures Committed(cr, ps1, ps2, index[..|index| - 1], lines[..|index| - 1])
  {
    CommittedPop(cr, ps1, ps2, index, lines);
  }

  lemma BacktrackRank(cr: (Line, Line) -> bool, ps1: seq<Point>, ps2: seq<Point>, x: seq<seq<nat>>, index: seq<nat>,
                      lines: seq<Line>, lo: seq<nat>)
    requires State(cr, ps1, ps2, x, index, lines, lo) && |index| > 0 && x[|index|] == []
    requires |x[|index| - 1]| > 0
    ensures var d := |index|; Rank(x[..d - 1] + [x[d - 1][1..]], |ps1|) < Rank(x, |ps1|)
  {
    LevelsBounded(x, index, lo, |ps1|);
    RankPopHead(x, |index| - 1, |ps1|);
  }

  /** A complete commitment is a routing. */
  lemma CompleteIsRouting(cr: (Line, Line) -> bool, ps1: seq<Point>, ps2: seq<Point>, index: seq<nat>, lines: seq<Line>)
    requires Committed(cr, ps1, ps2, index, lines) && |index| == |ps1|
    ensures RoutingBy(cr, ps1, ps2, index)
  {
    forall i, j | 0 <= i < j < |index|
      ensures !cr(Segment(ps1, ps2, index, i), Segment(ps1, ps2, index, j))
    {
      assert Segment(ps1, ps2, index, i) == lines[i];
      assert Segment(ps1, ps2, index, j) == lines[j];
    }
  }

  /**
   * The crossing check of analyze: the first committed segment that the new
   * segment crosses, or None when it crosses none of them.
   */
  method FirstCross(lines: seq<Line>, newLine: Line) returns (r: Option<nat>)
    ensures r.None? ==> forall k :: 0 <= k < |lines| ==> !IsCross(lines[k], newLine)
    ensures r.Some? ==> r.value < |lines| && IsCross(lines[r.value], newLine)
    ensures r.Some? ==> forall k :: 0 <= k < r.value ==> !IsCross(lines[k], newLine)
  {
    var i := 0;
    while i < |lines|
      invariant 0 <= i <= |lines|
      invariant forall k :: 0 <= k < i ==> !IsCross(lines[k], newLine)
    {
      if IsCross(lines[i], newLine) {
        return Some(i);
      }
      i := i + 1;
    }
    return None;
  }

  /**
   * The candidate list of a new level: range(cnt) with the head of every
   * level removed, one `list.remove` at a time.
   */
  method NextList(x: seq<seq<nat>>, cnt: nat, ghost index: seq<nat>) returns (nextList: seq<nat>)
    requires |x| == |index| && Heads(x, index)
    requires forall i, j :: 0 <= i < j < |index| ==> index[i] != index[j]
    ensures nextList == Cands(index, 0, cnt)
  {
    nextList := Range(0, cnt);
    RangeIsCands(0, cnt);
    assert index[..0] == [];
    var k := 0;
    while k < |x|
      invariant 0 <= k <= |x|
      invariant nextList == Cands(index[..k], 0, cnt)
    {
      PushList(x, index, k, cnt);
      nextList := Remove(nextList, x[k][0]);
      k := k + 1;
    }
    assert index[..|x|] == index;
  }

  /**
   * The backtracking loop of analyze: while the top level is empty, pop it with
   * its segment and drop the head of the level below. `exhausted` reports that
   * level 0 ran empty, where the source pops the empty segment list.
   */
  method PopExhausted(ps1: seq<Point>, ps2: seq<Point>, x: seq<seq<nat>>, index: seq<nat>, lines: seq<Line>,
                      ghost lo: seq<nat>)
    returns (exhausted: bool, x': seq<seq<nat>>, index': seq<nat>, lines': seq<Line>, ghost lo': seq<nat>)
    requires State(IsCross, ps1, ps2, x, index, lines, lo)
    ensures exhausted ==> forall p :: !Routing(ps1, ps2, p)
    ensures !exhausted ==> State(IsCross, ps1, ps2, x', index', lines', lo') && |x'[|index'|]| > 0
    ensures !exhausted ==> Rank(x', |ps1|) <= Rank(x, |ps1|)
  {
    var cnt := |ps1|;
    var depth := |index|;
    x', index', lines', lo' := x, index, lines, lo;
    while |x'[depth]| == 0
      invariant depth == |index'|
      invariant State(IsCross, ps1, ps2, x', index', lines', lo')
      invariant Rank(x', cnt) <= Rank(x, cnt)
      decreases depth
    {
      if depth == 0 {
        LevelsTop(x', index', lo', cnt);
        FrontierExhausted(IsCross, ps1, ps2, lo'[0]);
        return true, x', index', lines', lo';
      }
      ghost var x2, index2, lines2, lo2 := BacktrackStep(IsCross, ps1, ps2, x', index', lines', lo');
      x' := x'[..depth - 1] + [x'[depth - 1][1..]];
      lines' := lines'[..depth - 1];
      index' := index'[..depth - 1];
      lo' := lo2;
      depth := depth - 1;
      assert x' == x2 && index' == index2 && lines' == lines2;
    }
    return false, x', index', lines', lo';
  }

  /**
   * NonCrossLines.analyze: depth-first search over the candidate stack `x`.
   * Returns the lexicographically least assignment of slots `ps2` to points
   * `ps1` whose segments pairwise do not cross, or None when there is none.
   */
  method Analyze(ps1: seq<Point>, ps2: seq<Point>) returns (r: Option<seq<nat>>)
    requires |ps1| == |ps2|
    ensures |ps1| == 0 ==> r == Some([])
    ensures r.Some? ==> Routing(ps1, ps2, r.value)
    ensures r.Some? ==> forall p :: Routing(ps1, ps2, p) ==> !LexLess(p, r.value)
    ensures r.None? ==> forall p :: !Routing(ps1, ps2, p)
  {
    var cnt := |ps1|;
    if cnt == 0 {
      return Some([]);
    }
    var x: seq<seq<nat>> := [Range(0, cnt)];
    var depth := 0;
    var lines: seq<Line> := [];
    var index: seq<nat> := [];
    ghost var lo: seq<nat> := [0];
    InitialState(IsCross, ps1, ps2);
    while true
      invariant depth == |index|
      invariant State(IsCross, ps1, ps2, x, index, lines, lo) && |x[depth]| > 0
      decreases Rank(x, cnt)
    {
      var newIndex := x[depth][0];
      assert newIndex < cnt by {
        LevelsTop(x, index, lo, cnt);
        assert newIndex in x[depth];
      }
      var newLine := Line(ps1[depth], ps2[newIndex]);
      var crossing: Option<nat> := None;
      if depth != 0 {
        crossing := FirstCross(lines, newLine);
      }
      if crossing.None? {
        ghost var x2, index2, lines2, lo2 := PushStep(IsCross, ps1, ps2, x, index, lines, lo);
        lines := lines + [newLine];
        index := index + [newIndex];
        assert index == index2 && lines == lines2;
        var nextList := NextList(x, cnt, index);
        x := x + [nextList];
        lo := lo2;
        depth := depth + 1;
        assert x == x2;
        if depth == cnt {
          CompleteIsRouting(IsCross, ps1, ps2, index, lines);
          return Some(index);
        }
      } else {
        ghost var x2, lo2 := SkipStep(IsCross, ps1, ps2, x, index, lines, lo, crossing.value);
        x := x[..depth] + [x[depth][1..]];
        lo := lo2;
        assert x == x2;
        var exhausted;
        exhausted, x, index, lines, lo := PopExhausted(ps1, ps2, x, index, lines, lo);
        if exhausted {
          return None;
        }
        depth := |index|;
      }
    }
  }

  /** Fewer than n distinct-or-not indices leave a gap: the next candidate list is not empty. */
  lemma FirstUnusedInCands(u: seq<nat>, n: nat)
    requires |u| < n
    ensures |Cands(u, 0, n)| > 0
  {
    var v := FirstUnused(u, n);
    CandsMembers(u, 0, n);
    assert v in Cands(u, 0, n);
  }

  lemma {:induction false} FirstUnused(u: seq<nat>, n: nat) returns (v: nat)
    requires |u| < n
    ensures v < n && v !in u
    decreases n
  {
    if n - 1 !in u {
      v := n - 1;
    } else {
      var w := Below(u, n - 1);
      BelowFacts(u, n - 1);
      v := FirstUnused(w, n - 1);
    }
  }

  /** The entries of u below b. */
  function Below(u: seq<nat>, b: nat): seq<nat>
  {
    if u == [] then [] else (if u[0] < b then [u[0]] else []) + Below(u[1..], b)
  }

  lemma {:induction false} BelowFacts(u: seq<nat>, b: nat)
    ensures forall v :: v in Below(u, b) <==> v in u && v < b
    ensures b in u ==> |Below(u, b)| < |u|
    ensures |Below(u, b)| <= |u|
  {
    if u != [] {
      BelowFacts(u[1..], b);
      assert u == [u[0]] + u[1..];
    }
  }
}
