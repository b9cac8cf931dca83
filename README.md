# simple-dxf-inspection-app: a verified model of the inspector core

This project models the decision logic of the `inspector` package of a DXF
drawing checker. Each Dafny module follows one source file, and each states
what that file promises as contracts and lemmas:

- **Frame detector** (`frame_extractor.py`). It sorts a layer's lines into
  horizontal and vertical, then groups and merges the collinear ones. Among
  the three longest lines of each orientation it finds the first 2 + 2
  rectangle and computes its corners by cross products. It also decides
  between the per-layer and the all-layer frame.
- **Title-block locator** (`check_titleblock.py`). It extracts and merges the
  rulings that touch the frame's right side and bottom. It then runs a
  two-pointer corner scan and a worklist that collects the rulings connected
  to the block. Error lines are the difference between the strict and the
  relaxed ruling sets, and a strict/relaxed decision sets the report.
- **Outline connectivity** (`check_outline_connectivity.py`):
  - the intersection calculators for line, circle and arc pairs;
  - the choice of the outline layer;
  - the per-entity touch counters kept by the `Intersection` class;
  - the classification of each line and arc into "loop broken",
    "extraneous" or no finding.
- **Bounding boxes** (`bounding_box.py`), the **out-of-frame detector**
  (`check_outer_object.py`), the **leader router** (`non_cross_lines.py`),
  the **summary layout** (`summarize_drawer.py`), the **frame check**
  (`check_frame.py`) and the **total check** (`check_total.py`).

The finding record `CheckResult` carries the ordinal `num` that every caller
sets. The model follows the callers here: the record's Python constructor
(`inspector/check_result.py:14`) has no such parameter.

Coordinates are `real`. The floating-point library functions are parameters
of type `Geometry.Lib`: `sqrt` (and so `Vec3.magnitude`), `angle_deg`,
`is_parallel`, the polar point `r * (cos a, sin a)`, and the constants
sin²(5°) and cos(89°). A lemma that needs one of their properties says so in
its `requires`, for example `SqrtSound`, `ParallelSound` or `PolarSound`.

`set` iteration order in Python is not defined. The model makes it an
explicit parameter, `enumerate: set<Point> -> seq<Point>`, for `list(pointSet)`.

Where the source raises, the model returns `None` or a failed `Outcome`
instead of deciding what happens next. Examples are an empty list indexed,
`dict.get` returning `None`, or a router that found no routing.

Loops stay loops (methods with invariants). Objects that update their
fields stay classes. Examples are `Intersection`, `Detect`, `CombinedLine`
and `FrameField`. Each method is proved against a specification function,
and the properties are lemmas about that function.

## Model

| member | source | states |
|---|---|---|
| CheckResults.RenumberFrom | inspector/check_total.py:35-36 | the i-th record gets ordinal k+i; length and every other field are kept |
| CheckResults.RenumberNumbered | inspector/check_total.py:35-36 | renumbering findings already numbered from k changes nothing (idempotence) |
| Entities.Query | inspector/check_outer_object.py:86 | an entity is in the query result exactly when it is in the drawing with that DXF type; the result is no longer than the drawing |
| Entities.OnLayer | inspector/frame_extractor.py:17 | an entity is in the result exactly when it is in the drawing on the named layer |
| Entities.LinesOfMembers | inspector/frame_extractor.py:17 | every LINE entity gives its start-end segment, and every segment comes from a LINE entity |
| Sorting.SortBySorted | inspector/frame_extractor.py:234-235 | the stable key sort gives a sorted permutation of its input |
| Sorting.SortByMembers | inspector/frame_extractor.py:234-235 | sorting keeps membership: x is in the result exactly when it is in the input |
| CheckFrame.InspectDoc | inspector/check_frame.py:21-76 | one finding, numbered 1: an error "no frame" carrying the frame message when there are no frame points; an error "wrong layer" for the layer message; otherwise a non-error "frame found" |
| CheckFrame.VerdictOnDrawing | inspector/check_frame.py:46-76 | on a drawing the frame check passes exactly when the union of all layers has a frame and some single layer has one too |
| CheckTotal.FlattenLength | inspector/check_total.py:28-33 | the combined list is as long as all inspectors' lists together |
| CheckTotal.FlattenPlaces | inspector/check_total.py:30-33 | finding j of inspector k sits after all findings of inspectors 0..k-1, in its own order |
| CheckTotal.InspectDoc | inspector/check_total.py:24-38 | the result is the concatenation Frame, TitleBlock, OuterObject, Outline, renumbered from 1 |
| CheckTotal.TotalSound | inspector/check_total.py:30-36 | ordinals are exactly 1..N with N the sum of the inspectors' counts; each finding is at its place with only its ordinal changed |
| BoundingBox.LineBox | inspector/bounding_box.py:190-200 | the least box holding both endpoints |
| BoundingBox.CircleBox | inspector/bounding_box.py:130-140 | the least box holding the four axis extremes of the circle |
| BoundingBox.PointBox | inspector/bounding_box.py:226-233 | the degenerate box of the location: it is the only box that is least for that point |
| BoundingBox.HullBoxLeast | inspector/bounding_box.py:203-215 | the vertex hull holds every vertex and lies inside every box that holds them all |
| BoundingBox.LWPolylineBox | inspector/bounding_box.py:203-215 | the running min/max loop computes the least box holding every vertex (a vertex is required) |
| BoundingBox.ArcBoxSound | inspector/bounding_box.py:92-127 | the corrected arc box holds both endpoints; each side reaches the circle's extreme exactly when the arc passes that axis direction, otherwise it is the endpoints' extreme |
| BoundingBox.ArcBottomUsesX | inspector/bounding_box.py:123 | counterexample: the box as written for the 0-90 degree arc about (10, 0), r = 1, has bottom 10 above top 1 and misses the start point |
| BoundingBox.WrappedArcMissesTop | inspector/bounding_box.py:106-121 | counterexample: the 270-to-180 degree arc passes 90 degrees on its second turn, but the box as written keeps top 0 below the arc's top point (0, 1) |
| BoundingBox.GetBB | inspector/bounding_box.py:50-88 | a box exactly for ARC, CIRCLE, LINE, LWPOLYLINE and POINT; DIMENSION, INSERT, MTEXT, TEXT and unsupported classes give none; the arc case uses the corrected arc box (see Findings and Left out) |
| BoundingBox.ByClass | inspector/bounding_box.py:29-31 | an entity is visited exactly when it is in the drawing and its DXF type is one of the listed classes |
| BoundingBox.OrderKeepsBoxes | inspector/bounding_box.py:30-31 | every entity that has a box is visited by the class-by-class order |
| BoundingBox.FoldBBSound | inspector/bounding_box.py:28-46 | the fold gives no box exactly when no entity has one; otherwise it covers every entity box and each side is a side of some entity box |
| BoundingBox.JoinSound | inspector/bounding_box.py:37-44 | a join covers both sides, each of its sides coming from one of them |
| BoundingBox.DrawingBB | inspector/bounding_box.py:22-46 | no box exactly when no entity has one; otherwise the box covers every entity box and each of its sides is a side of some entity box, so it is the least such box (over the corrected arc boxes) |
| CheckOuterObject.PointOutOfRangeMeaning | inspector/check_outer_object.py:72-81 | out of range is exactly outside the frame widened by 5 on every side; no point of the widened frame is out |
| CheckOuterObject.HitOf | inspector/check_outer_object.py:130-150 | the marker is the tested point for points, lines, texts and dimensions; a circle is marked on its circumference at 45 degrees, an arc at the corrected middle of its sweep (see Findings) |
| CheckOuterObject.HitCaptionNamesType | inspector/check_outer_object.py:84-170 | two hits share a caption exactly when their entities share a DXF type |
| CheckOuterObject.TestedPoint | inspector/check_outer_object.py:84-170 | only entities of the six detected DXF types (POINT, LINE, CIRCLE, ARC, TEXT, DIMENSION) have a tested point |
| CheckOuterObject.MiddleAngleAsWrittenOffArc | inspector/check_outer_object.py:141-146 | counterexample: an 80-100 degree arc gets its marker at 10 degrees, off the arc |
| CheckOuterObject.MiddleAngleOnArc | inspector/check_outer_object.py:141-146 | the corrected marker angle lies on the arc: inside [start, end], or on the [0, end] part of a wrapped arc |
| CheckOuterObject.ReportedIn | inspector/check_outer_object.py:84-170 | the entities the detector reports, in query order: no more than the query holds, each out of range (ReportedInMembers gives the exact multiplicities) |
| CheckOuterObject.Hits | inspector/check_outer_object.py:84-170 | a hit is in the result exactly when it is the hit of an entity of the query whose tested point is out of range; with HitsOneEach, one hit per reported entity, in query order |
| CheckOuterObject.ReportedInMembers | inspector/check_outer_object.py:84-170 | the entities a detector reports are those of its query that are out of range, each as often as it occurs |
| CheckOuterObject.HitsOneEach | inspector/check_outer_object.py:84-170 | there are as many hits as reported entities, and the i-th hit is that of the i-th reported entity |
| CheckOuterObject.Numbered | inspector/check_outer_object.py:172-185 | one error finding per hit, numbered consecutively from k, with the hit's marker, caption and description |
| CheckOuterObject.HitsNone | inspector/check_outer_object.py:67-68 | no entity out of range means no hit |
| CheckOuterObject.AllHitsMembers | inspector/check_outer_object.py:53-65 | the six detectors' hits are exactly the hits of the out-of-range entities of the drawing |
| CheckOuterObject.AllHitsOf | inspector/check_outer_object.py:60-65 | a hit of the six detectors is the hit of one detector's query |
| CheckOuterObject.ReportedDetected | inspector/check_outer_object.py:84-170 | an out-of-range entity's hit is a hit of the query of its own type |
| CheckOuterObject.OuterResultsNumbered | inspector/check_outer_object.py:53-58 | no findings without a two-point frame; otherwise ordinals 1..N, all errors of this inspection |
| CheckOuterObject.OuterResultsReported | inspector/check_outer_object.py:53-69 | with a two-point frame: only the position-less "nothing outside" finding when nothing is out; otherwise exactly one finding per out-of-range entity, each with a position, and each out-of-range entity has a finding at its marker with its kind's caption |
| CheckOuterObject.ReportedInAppend | inspector/check_outer_object.py:84-170 | the reported entities of two lists one after the other are those of each list, in order |
| CheckOuterObject.ReportedSplit | inspector/check_outer_object.py:53-66 | every out-of-range entity is looked at by exactly one of the six detectors |
| CheckOuterObject.AllHitsCount | inspector/check_outer_object.py:53-69 | the six detectors together give exactly as many hits as the drawing has out-of-range entities |
| CheckOuterObject.Detect.constructor | inspector/check_outer_object.py:39-50 | the object's results are the outer-object findings of the drawing (one per out-of-range entity, by OuterResultsReported) and its count is their number; arcs are marked at the corrected middle angle |
| CheckOuterObject.Detect.DetectOuterObject | inspector/check_outer_object.py:53-69 | runs the six detectors in order, then adds the position-less finding when none fired; the result is OuterResults |
| CheckOuterObject.Detect.DetectType | inspector/check_outer_object.py:84-170 | appends the numbered findings of the query's hits, one per reported entity in query order, and advances the count by their number |
| CheckOuterObject.Detect.Res | inspector/check_outer_object.py:172-185 | increments the count and appends one error finding with the new count as ordinal |
| SummarizeDrawer.ScaleFactorLeast | inspector/summarize_drawer.py:146-163 | the scale factor is the least factor by which the paper covers the drawing box |
| SummarizeDrawer.Select | inspector/summarize_drawer.py:54-61 | the findings of one region, as a subsequence in order |
| SummarizeDrawer.SelectAppend | inspector/summarize_drawer.py:55-61 | selecting distributes over concatenation, so the split keeps the findings' order |
| SummarizeDrawer.SelectPartition | inspector/summarize_drawer.py:48-63 | every finding lands in exactly one of the three lists: the three together are a permutation of the input |
| SummarizeDrawer.SplitToUpperRightNon | inspector/summarize_drawer.py:47-63 | the one-pass split gives the upper, right and position-less lists |
| SummarizeDrawer.DrawCount | inspector/summarize_drawer.py:69-73 | the count drawn is min(maxCount, n) and n when maxCount is missing |
| SummarizeDrawer.OffsetIncreasing | inspector/summarize_drawer.py:80-81 | with positive line space the slot offsets (i+1)·ls strictly increase |
| SummarizeDrawer.SlotsOrdered | inspector/summarize_drawer.py:79-140 | with positive line space the slots are distinct and outside the box: upper ones rise above the top, right ones lie right of the box, bottom ones fall below the bottom |
| SummarizeDrawer.DecimalRoundTrip | inspector/summarize_drawer.py:89 | `str(n)` is made of digits, has no leading zero unless n is 0, and reads back as n |
| SummarizeDrawer.ArrowedSlots | inspector/summarize_drawer.py:85-93 | routed annotations fill every slot exactly once and point each finding's caption at that finding |
| SummarizeDrawer.ArrowedNonCrossing | inspector/summarize_drawer.py:85-91 | no two leaders of routed annotations cross |
| SummarizeDrawer.ArrowArea | inspector/summarize_drawer.py:84-93 | routes the findings to the tails with the non-crossing router; no routing gives no annotations |
| SummarizeDrawer.DrawUpperArea | inspector/summarize_drawer.py:66-93 | the upper area: the routed annotations to the upper tails of the first count findings |
| SummarizeDrawer.DrawRightArea | inspector/summarize_drawer.py:96-122 | the right area: the routed annotations to the right tails of the first count findings |
| SummarizeDrawer.DrawBottomArea | inspector/summarize_drawer.py:125-143 | the bottom area: the listed captions of the first count findings below the box |
| SummarizeDrawer.Summarize | inspector/summarize_drawer.py:24-44 | the drawing's box (built from the corrected arc boxes), then the scaled sizes and the three areas; no summary without a box or a routing |
| SummarizeDrawer.ScaledSummary | inspector/summarize_drawer.py:29-44 | font size, line space and line width are the base sizes times the scale factor, and the areas use that line space |
| SummarizeDrawer.DrawAreas | inspector/summarize_drawer.py:35-44 | the split followed by the three areas |
| SummarizeDrawer.SummarySound | inspector/summarize_drawer.py:24-44 | a summary places every finding exactly once, the position-less ones in the bottom list, and no two leaders of an arrowed area cross |
| SummarizeDrawer.ArrowedAreaSound | inspector/summarize_drawer.py:85-122 | an arrowed area has one caption per finding, each with a leader, and no two leaders cross |
| NonCrossLines.IsCrossSymmetric | inspector/non_cross_lines.py:71-92 | whether two segments cross does not depend on their order |
| NonCrossLines.IsCrossReversal | inspector/non_cross_lines.py:71-92 | reversing either segment does not change whether they cross |
| NonCrossLines.CollinearEndpointNeverCrosses | inspector/non_cross_lines.py:80-89 | the test is strict: an endpoint collinear with the other segment (touching) never counts as a crossing |
| NonCrossLines.SharedEndpointNeverCrosses | inspector/non_cross_lines.py:80-89 | two segments sharing an endpoint never cross |
| NonCrossLines.CandsHead | inspector/non_cross_lines.py:31 | the head of a candidate list is its least unused index, and popping it leaves the candidates above it |
| NonCrossLines.RemoveCands | inspector/non_cross_lines.py:46-48 | removing a fresh index from the candidate list equals marking it used |
| NonCrossLines.FirstUnusedInCands | inspector/non_cross_lines.py:46-49 | with fewer committed indices than points the new candidate list is not empty, so `x[-1][0]` is defined |
| NonCrossLines.RankDecreases | inspector/non_cross_lines.py:53-60 | the mixed-radix rank of the candidate stack decreases when a level shrinks and the levels below agree (the search terminates) |
| NonCrossLines.FrontierExhausted | inspector/non_cross_lines.py:55-68 | once level 0 has no candidate left, no non-crossing assignment exists |
| NonCrossLines.CompleteIsRouting | inspector/non_cross_lines.py:62-64 | a commitment of full depth is a non-crossing assignment |
| NonCrossLines.PushStep | inspector/non_cross_lines.py:42-50 | committing the head candidate keeps the search invariant one level deeper, keeps every earlier assignment excluded and lowers the rank |
| NonCrossLines.SkipStep | inspector/non_cross_lines.py:52-54 | dropping a head candidate that crosses a committed segment keeps the invariant and lowers the rank |
| NonCrossLines.BacktrackStep | inspector/non_cross_lines.py:55-60 | popping an exhausted level with its segment and index, and dropping the head below, keeps the invariant and lowers the rank |
| NonCrossLines.FirstCross | inspector/non_cross_lines.py:35-40 | the first committed segment the new segment crosses, or None exactly when it crosses none |
| NonCrossLines.NextList | inspector/non_cross_lines.py:46-49 | range(cnt) with every level's head removed is the list of indices not yet committed, in increasing order |
| NonCrossLines.PopExhausted | inspector/non_cross_lines.py:52-60 | the backtracking loop either reaches a non-empty level, keeping the invariant without raising the rank, or runs out at level 0, where no assignment exists |
| NonCrossLines.Analyze | inspector/non_cross_lines.py:12-68 | an empty input gives []; a result is a permutation whose segments pairwise do not cross and the lexicographically least one; None exactly when none exists |
| CheckTitleBlock.Filter | inspector/check_titleblock.py:181 | the kept elements are exactly those of the input satisfying the predicate, and each kept element satisfies it |
| CheckTitleBlock.FilterSubsequence | inspector/check_titleblock.py:222-223 | filtering keeps the order: rulings sorted across the axis stay sorted |
| CheckTitleBlock.IsSamePointMeaning | inspector/check_titleblock.py:456-464 | two points are the same exactly when both coordinates differ by strictly less than eps; the test is symmetric |
| CheckTitleBlock.MiddlePoint | inspector/check_titleblock.py:533-539 | the midpoint is as far from the start as the end is from it |
| CheckTitleBlock.MiddlePointReversed | inspector/check_titleblock.py:533-539 | the midpoint does not depend on the line's direction |
| CheckTitleBlock.AxisCoordinates | inspector/check_titleblock.py:178-269 | the axis-generic definitions are, per axis, the source's own tests: ruling, end swap, sort key, the continuation test and the joined ruling |
| CheckTitleBlock.Normalise | inspector/check_titleblock.py:187-193 | the ruling's start comes first along the axis, and the ends are the original ones, in one order or the other |
| CheckTitleBlock.MergeRun | inspector/check_titleblock.py:199-219 | merging from `cur` gives at least one and at most 1 + the rest rulings; the first starts where `cur` starts and reaches at least as far |
| CheckTitleBlock.MergeRunNormal | inspector/check_titleblock.py:203-219 | every merged ruling keeps its start first along the axis |
| CheckTitleBlock.MergeRunSorted | inspector/check_titleblock.py:196-219 | merging rulings sorted across the axis keeps them sorted |
| CheckTitleBlock.MergeRunStart | inspector/check_titleblock.py:208-215 | every merged ruling starts where some input ruling starts |
| CheckTitleBlock.MergeRunCovers | inspector/check_titleblock.py:203-219 | no ruling is lost by merging: every input ruling is covered by a merged one |
| CheckTitleBlock.MergeRuns | inspector/check_titleblock.py:199-219 | the `while i < len(lines)` loop computes the merge of the sorted rulings |
| CheckTitleBlock.PreparedFacts | inspector/check_titleblock.py:178-196 | the prepared rulings are the candidates, one each, normalised and sorted across the axis, each starting where a candidate starts |
| CheckTitleBlock.MergedFacts | inspector/check_titleblock.py:196-219 | the merged rulings are sorted across the axis, normalised and start at candidates |
| CheckTitleBlock.MergedKeeps | inspector/check_titleblock.py:196-219 | merging keeps order across the axis, direction along it and where the rulings start |
| CheckTitleBlock.MergedCovers | inspector/check_titleblock.py:196-219 | every normalised candidate is covered by a merged ruling |
| CheckTitleBlock.TouchingSound | inspector/check_titleblock.py:222-229 | an extraction's result is no longer than the candidates, sorted, normalised, touching the frame and starting at candidates |
| CheckTitleBlock.RightTouchHorizontalSound | inspector/check_titleblock.py:169-229 | horizontals run left to right, end within eps of the frame's right side, start within eps of the frame's vertical band, and come top down; the error is HorizontalLineNotFound exactly when there is no candidate or none touches |
| CheckTitleBlock.BottomTouchVerticalSound | inspector/check_titleblock.py:233-287 | verticals run top down, end within eps of the frame's bottom, start strictly between its sides, and come left to right; the error is VerticalLineNotFound exactly when there is no candidate |
| CheckTitleBlock.ExtractTouching | inspector/check_titleblock.py:178-229 | the shared filter-normalise-sort-merge-touch body computes the extraction |
| CheckTitleBlock.ExtractRightTouchHorizontalLine | inspector/check_titleblock.py:169-229 | computes the horizontal extraction |
| CheckTitleBlock.ExtractBottomTouchVerticalLine | inspector/check_titleblock.py:233-287 | computes the vertical extraction |
| CheckTitleBlock.Advance | inspector/check_titleblock.py:436-447 | each step of the corner scan advances at least one pointer and never moves one back |
| CheckTitleBlock.CornerSound | inspector/check_titleblock.py:427-452 | the scan from (i, j) finds a point that is the start of a horizontal within eps of the start of a vertical, or fails with TopLeftCornerNotFound |
| CheckTitleBlock.TopLeftCornerSound | inspector/check_titleblock.py:419-452 | a found corner is a horizontal's start within eps of a vertical's start; the scan fails with the index error exactly when a list is empty |
| CheckTitleBlock.FindTopLeftCorner | inspector/check_titleblock.py:419-452 | the two-pointer loop computes the corner scan |
| CheckTitleBlock.TitleBlockAreaSound | inspector/check_titleblock.py:130-165 | the block's bottom and right are the frame's; its top-left is a corner of the right-touching horizontals and the bottom-touching verticals; a corner failure is reported as a missing block, which lets the relaxed retry run (the intended flow; the crash at line 155 is modelled separately by CornerFailureAsWrittenSkipsRetry); fewer than two frame points fail |
| CheckTitleBlock.FindTitleBlockArea | inspector/check_titleblock.py:130-165 | the method gives the area stated by TitleBlockAreaSound, in the intended flow without the crash at line 155 |
| CheckTitleBlock.ContactNeedsPerpendicular | inspector/check_titleblock.py:394-396 | lines that are not perpendicular within eps never touch |
| CheckTitleBlock.ContactIgnoresDirection | inspector/check_titleblock.py:381-391 | reversing either line does not change contact |
| CheckTitleBlock.TeeContacts | inspector/check_titleblock.py:399-416 | a T or an L (an end of one exact line on the other) is a contact, in either order |
| CheckTitleBlock.CrossingIsNoContact | inspector/check_titleblock.py:399-416 | a plus (crossing at least eps away from all four ends) is no contact, in either order |
| CheckTitleBlock.AnyContact | inspector/check_titleblock.py:351-356 | the inner loop finds a contact exactly when the line touches one of the given lines |
| CheckTitleBlock.Split | inspector/check_titleblock.py:348-356 | one round splits the untested lines into those touching none of the last rulings and those touching one; together they are the untested lines |
| CheckTitleBlock.Close | inspector/check_titleblock.py:343-371 | the worklist keeps the rulings found so far as a prefix of its result |
| CheckTitleBlock.CloseSound | inspector/check_titleblock.py:343-371 | the new rulings and the leftovers partition the untested lines; every ruling touches a side or an earlier ruling; no leftover touches any ruling |
| CheckTitleBlock.TitleBlockLinesSound | inspector/check_titleblock.py:320-371 | the kept rulings and the leftovers partition the candidates; each kept ruling touches a side or a ruling kept before it; no leftover touches a side or a kept ruling |
| CheckTitleBlock.ContactRound | inspector/check_titleblock.py:348-356 | the `for l1 in lines1` loop computes one round |
| CheckTitleBlock.ExtractTitleBlockLines | inspector/check_titleblock.py:320-371 | the `while True` worklist computes the rulings connected to the block |
| CheckTitleBlock.ExtractLinesInTitleBlock | inspector/check_titleblock.py:290-316 | computes the rulings of the block: horizontal or vertical lines inside it, connected to it |
| CheckTitleBlock.ErrorLinesSound | inspector/check_titleblock.py:467-486 | an error line is exactly a ruling of `lines2` matched by no ruling of `lines1` (either direction); none when all are matched |
| CheckTitleBlock.AnySameLine | inspector/check_titleblock.py:477-482 | the inner loop finds a match exactly when some ruling of `lines1` has the same ends, in either order |
| CheckTitleBlock.ExtractErrorLines | inspector/check_titleblock.py:467-486 | the nested loop computes the error lines |
| CheckTitleBlock.ReportSound | inspector/check_titleblock.py:58-123 | numbered 1..N; no error exactly when the strict search succeeds, then one error per error line at its midpoint; a failed strict search gives one error, at the relaxed block when the retry finds it and position-less otherwise |
| CheckTitleBlock.SuccessResultsFacts | inspector/check_titleblock.py:64-78 | a success gives the block finding at (right, vertical centre) and one error per error line at its midpoint, numbered 1..N |
| CheckTitleBlock.InspectionErrors | inspector/check_titleblock.py:46-52 | on a strict detection: one finding unless the relaxed rulings outnumber the strict ones, otherwise one error per relaxed ruling no strict ruling matches |
| CheckTitleBlock.ReportSuccess | inspector/check_titleblock.py:64-78 | the loop computes the success findings |
| CheckTitleBlock.InspectDoc | inspector/check_titleblock.py:35-126 | the inspection method gives the results stated by ReportSound and InspectionErrors, in the intended flow: the crashes at lines 96 and 155 are modelled separately by the as-written lemmas, and the failure result keeps the positional argument order of line 123 |
| CheckTitleBlock.CornerFailureAsWrittenSkipsRetry | inspector/check_titleblock.py:152-157 | with the handler as written a missing corner skips the relaxed retry and reports no block; the corrected handler retries and reports the suspect block |
| CheckTitleBlock.ReportAsWrittenHidesSuspect | inspector/check_titleblock.py:96 | as written a block found only with the relaxed tolerance is reported as missing; corrected, it is reported as suspect with its position |
| FrameExtractor.OrientationExclusive | inspector/frame_extractor.py:27-30 | with the 5-degree threshold no line is both horizontal and vertical |
| FrameExtractor.Horizontals | inspector/frame_extractor.py:24-28 | a line is kept exactly when it is one of the given lines and within 5 degrees of horizontal |
| FrameExtractor.Verticals | inspector/frame_extractor.py:24-30 | a line is kept exactly when it is one of the given lines and within 5 degrees of vertical |
| FrameExtractor.Classify | inspector/frame_extractor.py:24-30 | the classification loop gives the horizontal and the vertical lines |
| FrameExtractor.Near | inspector/frame_extractor.py:50 | exactly the indices below n whose key lies within tol of key k, in increasing order |
| FrameExtractor.InSome | inspector/frame_extractor.py:52-56 | true exactly when line k is in one of the groups |
| FrameExtractor.GroupsCover | inspector/frame_extractor.py:48-60 | with tol >= 0 every line ends up in some group |
| FrameExtractor.GroupsOpened | inspector/frame_extractor.py:48-60 | every group is the tol-neighbourhood of one of the lines |
| FrameExtractor.GroupLines | inspector/frame_extractor.py:48-60 | the grouping loop computes the groups of all lines |
| FrameExtractor.GroupStep | inspector/frame_extractor.py:49-59 | one iteration extends the groups of the first k lines to those of the first k+1 |
| FrameExtractor.AnyGroupHas | inspector/frame_extractor.py:52-56 | the `for lineList in ...values()` search finds line k exactly when it is in some group |
| FrameExtractor.MergeSound | inspector/frame_extractor.py:62-79 | no more segments than lines, and every grouped line has its extent along the axis spanned by some merged segment |
| FrameExtractor.MergeGroups | inspector/frame_extractor.py:62-79 | the merge loops with the judged set compute the merged segments |
| FrameExtractor.MergeOrdered | inspector/frame_extractor.py:70-77 | every merged segment runs from its low end to its high end along the axis |
| FrameExtractor.StartKeys | inspector/frame_extractor.py:50 | the grouping key of line i is start.y for horizontals and start.x for verticals |
| FrameExtractor.LongestLine | inspector/frame_extractor.py:97 | one of the lines, and none is longer |
| FrameExtractor.SegLines | inspector/frame_extractor.py:87-88 | one line from low end to high end per merged segment, in order |
| FrameExtractor.MergedAxisSound | inspector/frame_extractor.py:42-142 | one orientation's merge yields no more lines than given, each from low to high end, and every input line's extent lies within one of them |
| FrameExtractor.CombinedSound | inspector/frame_extractor.py:14-36 | at most one combined line per horizontal or vertical line; every horizontal (vertical) line's x (y) extent lies within a combined line running left to right (bottom to top) |
| FrameExtractor.CombinedCoversHorizontals | inspector/frame_extractor.py:42-88 | every horizontal line's x extent lies within some combined line |
| FrameExtractor.CombinedCoversVerticals | inspector/frame_extractor.py:93-142 | every vertical line's y extent lies within some combined line |
| FrameExtractor.CombinedLine.constructor | inspector/frame_extractor.py:10-12 | the object holds the combined lines of the layer's LINE entities |
| FrameExtractor.CombinedLine.GetCombinedLines | inspector/frame_extractor.py:14-36 | appends the combined lines of the layer |
| FrameExtractor.CombinedLine.GetCombinedAxisLine | inspector/frame_extractor.py:42-142 | appends the merged lines of one orientation |
| FrameExtractor.CombinedLine.AddLines | inspector/frame_extractor.py:87-88 | appends one line per merged segment, in order |
| FrameExtractor.CalPointOnBoth | inspector/frame_extractor.py:301-314 | a computed corner lies on both supporting lines (both cross products vanish) |
| FrameExtractor.CalPointDefined | inspector/frame_extractor.py:301-314 | the corner computation fails (raises) exactly for directions `is_parallel` accepts |
| FrameExtractor.Sort2IsSortBy | inspector/frame_extractor.py:186-187 | the two-element sort is the stable sort on two elements |
| FrameExtractor.CursoryFrameCorners | inspector/frame_extractor.py:180-201 | the rectangle test holds exactly when each horizontal's ends are within 1% of its length of the matching ends of the left and right lines |
| FrameExtractor.SurroundingSelf | inspector/frame_extractor.py:172-176 | a point is always within tolerance of itself |
| FrameExtractor.ExactRectangleIsFrame | inspector/frame_extractor.py:180-201 | an axis-parallel rectangle whose sides meet exactly passes the test |
| FrameExtractor.PairsMembers | inspector/frame_extractor.py:206-213 | the combinations are exactly the pairs i < j < n |
| FrameExtractor.PairsIncreasing | inspector/frame_extractor.py:206-213 | they come in strictly increasing lexicographic order, so without repeats |
| FrameExtractor.PairsCount | inspector/frame_extractor.py:206-213 | there are n(n-1)/2 of them |
| FrameExtractor.PairsOfThree | inspector/frame_extractor.py:259 | the combinations of three are (0,1), (0,2), (1,2) |
| FrameExtractor.Combination2inN | inspector/frame_extractor.py:206-213 | the two nested loops compute the combinations |
| FrameExtractor.AppendRow | inspector/frame_extractor.py:209-211 | the inner loop appends the pairs (i, j), i < j < n, in order |
| FrameExtractor.SearchHNone | inspector/frame_extractor.py:262-288 | the search finds nothing exactly when the test accepts no pair of pairs |
| FrameExtractor.SearchHFirst | inspector/frame_extractor.py:262-286 | a found choice is the first accepted one in the order of the two loops |
| FrameExtractor.MessagesDiffer | inspector/frame_extractor.py:218-288 | the found message differs from every failure message and from the empty one |
| FrameExtractor.CandidatesLongest | inspector/frame_extractor.py:234-249 | the candidates are a permutation of that orientation's lines, longest first |
| FrameExtractor.FrameLinesOrder | inspector/frame_extractor.py:275-281 | the frame lines come top, right, bottom, left: top no lower than bottom, right no further left than left, each from its own orientation |
| FrameExtractor.CursoryIsSearch | inspector/frame_extractor.py:248-288 | with three candidates of each orientation the fields are those of the search over the three longest |
| FrameExtractor.SortedCandidates | inspector/frame_extractor.py:222-235 | the classification and the two sorts give the candidates |
| FrameExtractor.FirstChoice | inspector/frame_extractor.py:262-273 | the nested loops stop at the search's first accepted choice |
| FrameExtractor.FirstVertical | inspector/frame_extractor.py:266-273 | the inner loop stops at the first vertical pair accepted with e |
| FrameExtractor.FrameField.constructor | inspector/frame_extractor.py:149-155 | the object's fields are those of the cursory detection of the lines |
| FrameExtractor.FrameField.DetectCursoryFrame | inspector/frame_extractor.py:215-290 | fills the fields of the cursory detection and returns whether a frame was found |
| FrameExtractor.FrameField.SearchCandidates | inspector/frame_extractor.py:248-288 | registers the candidates, then the search's fields |
| FrameExtractor.FrameField.AddCandidates | inspector/frame_extractor.py:252-255 | appends the candidate lines, changing no other field |
| FrameExtractor.FrameField.Search | inspector/frame_extractor.py:259-290 | the loops with registration on the first hit give the search's fields |
| FrameExtractor.FrameField.Register | inspector/frame_extractor.py:273-286 | registers the frame lines clockwise from the top, the corners, and the found message unless the corners raised |
| FrameExtractor.FrameField.GetFramePoint | inspector/frame_extractor.py:292-299 | computes the corners (left x bottom, top x right), changing no other field |
| FrameExtractor.CursoryRejects | inspector/frame_extractor.py:217-246 | the early exits, each with its own message, no frame, no points and no candidates |
| FrameExtractor.CursoryPoints | inspector/frame_extractor.py:215-290 | a frame comes with two corners, four frame lines and the found message; no frame, no points and another message |
| FrameExtractor.FramePointsCount | inspector/frame_extractor.py:292-299 | corners come two at a time unless the computation raised |
| FrameExtractor.CursoryFrameShape | inspector/frame_extractor.py:273-299 | a found frame: lines top, right, bottom, left; the first corner on the left and bottom lines, the second on the top and right; all four among the candidates of their orientation |
| FrameExtractor.FramePointsOnLines | inspector/frame_extractor.py:292-314 | computed corners lie on the lines they were computed from |
| FrameExtractor.SearchResultChoice | inspector/frame_extractor.py:259-290 | a choice is made exactly when some pair of each orientation passes the rectangle test, and it is the first in loop order |
| FrameExtractor.CursoryChoice | inspector/frame_extractor.py:248-290 | the same for the three longest lines of each orientation of a layer |
| FrameExtractor.LayerLines | inspector/frame_extractor.py:349-352 | one combined-line list per layer, in layer-table order, from that layer's LINE entities |
| FrameExtractor.Concat | inspector/frame_extractor.py:355-357 | a line is in the union exactly when it is in some layer's list |
| FrameExtractor.Fields | inspector/frame_extractor.py:352 | one frame field per layer, that of its lines |
| FrameExtractor.FirstFramed | inspector/frame_extractor.py:369-371 | the first layer with a frame, or None exactly when no layer has one |
| FrameExtractor.FirstFramedLayer | inspector/frame_extractor.py:369-371 | the loop returns at the first layer with a frame |
| FrameExtractor.DecideSound | inspector/frame_extractor.py:359-375 | frame points exactly when the union has a frame; then the first framed layer's points with the found message, or the union's with the layer-error message; otherwise the union's message |
| FrameExtractor.CollectLayers | inspector/frame_extractor.py:349-352 | the per-layer loop gives every layer's combined lines and field, or reports that a field raised |
| FrameExtractor.UnionLines | inspector/frame_extractor.py:355-357 | the `extend` loop gives the union in layer order |
| FrameExtractor.DetectFrame | inspector/frame_extractor.py:342-375 | computes the frame decision of the drawing; None where a corner computation raises |
| FrameExtractor.RectangleCorners | inspector/frame_extractor.py:172-201 | the four sides of an exact axis-parallel rectangle pass the corner test at all four corners |
| FrameExtractor.SearchVSpec | inspector/frame_extractor.py:266-273 | the inner loop finds nothing exactly when no vertical pair from its start position passes the test with the fixed horizontal pair, and otherwise gives the first that does |
| FrameExtractor.SearchResultFound | inspector/frame_extractor.py:259-290 | the candidates are the three horizontals followed by the three verticals; a frame is found or the corner computation raises exactly when the search makes a choice, and the frame lines are those of that choice |
| FrameExtractor.SearchResultPoints | inspector/frame_extractor.py:273-290 | with a frame there are two corner points, four frame lines and the success message; with no frame and no raise there are no corner points and another message |
| FrameExtractor.SearchResultShape | inspector/frame_extractor.py:273-299 | a found frame lists its top above its bottom and its right beside its left, each corner point lies on its two sides, and the horizontal sides come from the horizontal candidates, the vertical ones from the vertical candidates |
| FrameExtractor.FirstFramedAt | inspector/frame_extractor.py:369-371 | the layer chosen is the first whose field has a frame |
| OutlineCalculator.SegmentOnLine | inspector/check_outline_connectivity.py:412-421 | every point of a non-degenerate segment, at a parameter between 0 and 1, is accepted as lying on that segment |
| OutlineCalculator.IsOnLineNear | inspector/check_outline_connectivity.py:412-421 | a point accepted as on a line lies within the 0.01 tolerance of the supporting line, stated through the cross product with the direction |
| OutlineCalculator.MeetingPointExact | inspector/check_outline_connectivity.py:428-439 | for non-parallel lines the computed meeting point lies exactly on both supporting lines, and it is the only point that does |
| OutlineCalculator.CalInterLineAndLine | inspector/check_outline_connectivity.py:424-444 | two segments meet in at most one point; every reported point lies on both segments; a zero-length segment or a parallel pair gives no point |
| OutlineCalculator.LineAndLineExact | inspector/check_outline_connectivity.py:424-444 | for non-parallel, non-degenerate segments the result is exactly the common point of the two supporting lines when it lies on both segments, and empty otherwise |
| OutlineCalculator.PointsAt | inspector/check_outline_connectivity.py:495-499 | the points produced from parameters are at most as many as the parameters, each on the segment and at one of the given parameters |
| OutlineCalculator.CircleLineParams | inspector/check_outline_connectivity.py:464-492 | at most two parameters; a single one (the foot of the perpendicular) exactly when the centre-to-line distance is within tolerance of the radius; two roots of the quadratic when the discriminant is positive; none otherwise |
| OutlineCalculator.CalInterCircleAndLine | inspector/check_outline_connectivity.py:459-501 | at most two points, none for a zero-length segment, and every point lies on the segment and on its supporting line |
| OutlineCalculator.CircleLinePoint | inspector/check_outline_connectivity.py:495-499 | every reported point comes from one of the computed parameters along the segment direction |
| OutlineCalculator.CircleLineOnCircle | inspector/check_outline_connectivity.py:470-499 | in the two-root case each reported point lies exactly on the circle |
| OutlineCalculator.CircleLineTangentFoot | inspector/check_outline_connectivity.py:487-489 | in the tangent case the reported point is the foot of the perpendicular from the centre: the radius to it is orthogonal to the line |
| OutlineCalculator.AreOverlappedSymmetric | inspector/check_outline_connectivity.py:630-642 | two circles are treated as overlapping regardless of the order they are given in |
| OutlineCalculator.CalInterCircleAndCircleAsWritten | inspector/check_outline_connectivity.py:505-548 | the two-circle intersection as written: at most two points and none for overlapping circles |
| OutlineCalculator.InternalTouchAsWrittenMissed | inspector/check_outline_connectivity.py:521-526 | as written, circles touching internally (centre distance within tolerance of the difference of the radii) are classified as disjoint and give no point |
| OutlineCalculator.CalInterCircleAndCircle | inspector/check_outline_connectivity.py:505-548 | the corrected intersection: at most two points, none for overlapping circles and none for circles farther apart than the sum of the radii plus tolerance; CircleCircleTouch and InternalTouchFromLarger give its touch point |
| OutlineCalculator.CircleCircleTouch | inspector/check_outline_connectivity.py:526-531 | circles that touch, externally or internally, give exactly one point, and with an exact square root that point lies within 3 TOL of both circles |
| OutlineCalculator.InternalTouchFound | inspector/check_outline_connectivity.py:526-531 | in the corrected version internally touching circles give exactly one point, within 3 TOL of both circles whichever of them comes first |
| OutlineCalculator.InternalTouchFromLarger | inspector/check_outline_connectivity.py:521-531 | with the smaller circle first, the internal touch point is measured from the larger circle's centre |
| OutlineCalculator.TouchPointDistances | inspector/check_outline_connectivity.py:527 | the touch point lies r1 + TOL from the first centre, on the ray towards the second, and the absolute value of r1 + TOL - d from the second centre |
| OutlineCalculator.CircleCircleNested | inspector/check_outline_connectivity.py:523-525 | a circle strictly inside the other gives no point |
| OutlineCalculator.InSweepMeaning | inspector/check_outline_connectivity.py:564-571 | the angle test, with its wrap-around branch, accepts an angle exactly when it lies on the counter-clockwise sweep from the start to the end angle; equal start and end accept every angle |
| OutlineCalculator.IsOnArcMeaning | inspector/check_outline_connectivity.py:552-571 | a point is on an arc exactly when its distance from the centre is at most the radius plus tolerance (points well inside the circle pass too) and its direction from the centre lies on the arc's sweep |
| OutlineCalculator.CalInterArcAndLine | inspector/check_outline_connectivity.py:575-586 | the arc-line points are a subset of the circle-line points, at most two, and each lies on the segment and on the arc |
| OutlineCalculator.CalInterCircleAndArc | inspector/check_outline_connectivity.py:590-605 | the circle-arc points are a subset of the (corrected) circle-circle points, none when the circles overlap, and each lies on the arc |
| OutlineCalculator.ArcOverlapMeaning | inspector/check_outline_connectivity.py:646-663 | two arcs overlap exactly when their circles overlap and an end angle of the second lies on the sweep of the first; a full-sweep first arc needs an equal end angle |
| OutlineCalculator.CalInterArcAndArc | inspector/check_outline_connectivity.py:609-626 | the arc-arc points are a subset of the (corrected) circle-circle points, at most two, and each lies on both arcs |
| OutlineCalculator.ArcAndArcOverlapped | inspector/check_outline_connectivity.py:609-626 | arcs on overlapping circles give no point |
| OutlineConnectivity.TypeList | inspector/check_outline_connectivity.py:205-211 | the per-type list holds exactly the indices of the entities of that type, in drawing order, without repeats |
| OutlineConnectivity.TypeListAsWritten | inspector/check_outline_connectivity.py:307 | the dictionary lookup as written gives nothing exactly when no entity has the type, and otherwise the non-empty per-type list |
| OutlineConnectivity.IntersectionRaisesMeaning | inspector/check_outline_connectivity.py:304-394 | as written, building the intersections fails exactly when the outline lacks lines, circles or arcs |
| OutlineConnectivity.RectangleRaisesAsWritten | inspector/check_outline_connectivity.py:320-332 | a closed rectangle of four lines, with no circle and no arc, already makes the pass as written fail |
| OutlineConnectivity.EndHitsPair | inspector/check_outline_connectivity.py:240-245 | the end-point count of an entity with two ends adds one for each end within range of the point |
| OutlineConnectivity.DeltaBound | inspector/check_outline_connectivity.py:220-298 | one call of the counting step raises no entity's end-point count by more than twice its intersection count |
| OutlineConnectivity.WithEntry | inspector/check_outline_connectivity.py:224-227 | registering an entity adds its key with zero counters when it is new, keeps its counters when it is not, and changes no other counter |
| OutlineConnectivity.Bumped | inspector/check_outline_connectivity.py:233 | raising a counter changes neither the registered entities nor the collected points |
| OutlineConnectivity.VisitsAppend | inspector/check_outline_connectivity.py:213-218 | visiting two lists of pairs one after the other is the same as visiting their concatenation |
| OutlineConnectivity.TriPairsSound | inspector/check_outline_connectivity.py:309-310 | the same-type pair loop only visits pairs (i, j) of the list with i before j |
| OutlineConnectivity.TriPairsComplete | inspector/check_outline_connectivity.py:309-310 | the same-type pair loop visits every pair with i before j |
| OutlineConnectivity.ProdSound | inspector/check_outline_connectivity.py:326-327 | the two-type loop only visits pairs made of one element of each list |
| OutlineConnectivity.ProdComplete | inspector/check_outline_connectivity.py:326-327 | the two-type loop visits every pair made of one element of each list |
| OutlineConnectivity.TriVisitsStep | inspector/check_outline_connectivity.py:309-313 | one more row of the same-type loop is the previous rows followed by the pairs of element i with each later element |
| OutlineConnectivity.ProdVisitsStep | inspector/check_outline_connectivity.py:326-330 | one more row of the two-type loop is the previous rows followed by the pairs of element i with every element of the other list |
| OutlineConnectivity.Intersection.constructor | inspector/check_outline_connectivity.py:197-218 | construction groups the entities by type (the corrected per-type lists) and runs the six pair passes, leaving the counters and points of the whole pass over all pairs |
| OutlineConnectivity.Intersection.VisitTriangle | inspector/check_outline_connectivity.py:304-317 | a same-type pass leaves the state of visiting every pair i before j in order |
| OutlineConnectivity.Intersection.VisitTriRow | inspector/check_outline_connectivity.py:310-313 | one inner loop of a same-type pass extends the visited rows by one |
| OutlineConnectivity.Intersection.VisitProduct | inspector/check_outline_connectivity.py:320-332 | a two-type pass leaves the state of visiting every pair of one element of each list in order |
| OutlineConnectivity.Intersection.VisitProdRow | inspector/check_outline_connectivity.py:327-330 | one inner loop of a two-type pass extends the visited rows by one |
| OutlineConnectivity.Intersection.VisitRow | inspector/check_outline_connectivity.py:310-313 | an inner loop visits the pairs of one entity with a suffix of the other list, in order |
| OutlineConnectivity.Intersection.Visit | inspector/check_outline_connectivity.py:311-313 | one pair: its intersection points are counted and added to the collected points |
| OutlineConnectivity.Intersection.CountInter | inspector/check_outline_connectivity.py:220-298 | counting one pair registers both entities and adds the increments of their pair of types |
| OutlineConnectivity.Intersection.Increments | inspector/check_outline_connectivity.py:231-298 | the increments for a non-empty point list are those of the branch for the pair's types |
| OutlineConnectivity.Intersection.AddEntry | inspector/check_outline_connectivity.py:224-227 | registration as in WithEntry; nothing else changes |
| OutlineConnectivity.Intersection.Bump | inspector/check_outline_connectivity.py:233 | one counter is raised by the given amounts; nothing else changes |
| OutlineConnectivity.Intersection.CountEnds | inspector/check_outline_connectivity.py:240-245 | the loop over an entity's ends counts those within range of the point |
| OutlineConnectivity.Intersection.EachPoint | inspector/check_outline_connectivity.py:248-285 | the per-point branches raise the intersection count once per point and the end-point count by the ends in range of each point |
| OutlineConnectivity.Intersection.FirstPoint | inspector/check_outline_connectivity.py:287-298 | the arc-arc branch tests the ends against the first point only, once per point |
| OutlineConnectivity.CountStepValid | inspector/check_outline_connectivity.py:220-298 | counting a pair of distinct lines, circles or arcs keeps the counters valid: keys unique and registered, each end-point count at most twice the intersection count |
| OutlineConnectivity.CountStepKeys | inspector/check_outline_connectivity.py:224-227 | after counting a pair, the registered entities are the old ones plus the two of the pair |
| OutlineConnectivity.CountStepGrows | inspector/check_outline_connectivity.py:220-298 | counting never removes an entity or a point and never lowers a counter |
| OutlineConnectivity.CountStepNoPoints | inspector/check_outline_connectivity.py:224-231 | a pair with no intersection point only registers its two entities |
| OutlineConnectivity.VisitsValid | inspector/check_outline_connectivity.py:213-218 | any sequence of valid pair visits keeps the counters valid |
| OutlineConnectivity.VisitsGrow | inspector/check_outline_connectivity.py:213-218 | visits never remove an entity or a point and never lower a counter |
| OutlineConnectivity.VisitsKeys | inspector/check_outline_connectivity.py:213-218 | an entity is registered after the visits exactly when it was before or it takes part in a visited pair |
| OutlineConnectivity.PairGood | inspector/check_outline_connectivity.py:304-394 | every pair the six passes visit is two distinct lines, circles or arcs of the drawing |
| OutlineConnectivity.PairFor | inspector/check_outline_connectivity.py:304-394 | every two distinct lines, circles or arcs are visited, in one order or the other |
| OutlineConnectivity.BuiltValid | inspector/check_outline_connectivity.py:197-218 | the counters the construction leaves are valid |
| OutlineConnectivity.BuiltKeys | inspector/check_outline_connectivity.py:197-227 | an entity gets counters exactly when it is a line, circle or arc and some other line, circle or arc exists |
| OutlineConnectivity.ContinuousNames | inspector/check_outline_connectivity.py:159-163 | the names collected are exactly those of the layers whose line type is "Continuous" |
| OutlineConnectivity.GroupKeys | inspector/check_outline_connectivity.py:166 | the group names are the entities' layers, each once |
| OutlineConnectivity.KindedCountLists | inspector/check_outline_connectivity.py:174-211 | the count used to choose the outline layer is the number of lines, circles and arcs on it |
| OutlineConnectivity.ChoiceNone | inspector/check_outline_connectivity.py:169-183 | when no group is on a continuous layer the choice stays at the empty name with count zero |
| OutlineConnectivity.ChoiceBest | inspector/check_outline_connectivity.py:169-183 | otherwise the chosen layer is continuous, has the largest count, and is the last such group on ties |
| OutlineConnectivity.ExtractNone | inspector/check_outline_connectivity.py:156-190 | extraction fails exactly when no entity lies on a continuous layer and none lies on the layer named "" |
| OutlineConnectivity.ExtractBest | inspector/check_outline_connectivity.py:156-190 | when some entity is on a continuous layer, extraction gives the entities of the chosen layer |
| OutlineConnectivity.ContinuousLayers | inspector/check_outline_connectivity.py:159-163 | the layer loop computes the continuous layer names |
| OutlineConnectivity.CountOutline | inspector/check_outline_connectivity.py:174-179 | the entity loop counts the lines, circles and arcs of a group |
| OutlineConnectivity.ChooseOutline | inspector/check_outline_connectivity.py:169-183 | the group loop makes the choice stated by ChoiceNone and ChoiceBest |
| OutlineConnectivity.CopyGroup | inspector/check_outline_connectivity.py:186-188 | the copy loop returns the group unchanged |
| OutlineConnectivity.ExtractContinuous | inspector/check_outline_connectivity.py:156-190 | the extraction method gives the result stated by ExtractNone and ExtractBest |
| OutlineConnectivity.Classify | inspector/check_outline_connectivity.py:52-131 | a line or arc is reported exactly when fewer than two of its ends touch intersections; the loop is broken when one end touches or it has two or more intersections, stray otherwise; the mark sits at a line's midpoint or an arc's start point; circles are never reported |
| OutlineConnectivity.Flagged | inspector/check_outline_connectivity.py:42-131 | an entity is flagged exactly when it is registered and its classification gives a mark |
| OutlineConnectivity.Findings | inspector/check_outline_connectivity.py:42-131 | one finding per flagged entity, in order, numbered from 1 |
| OutlineConnectivity.FlaggedExactly | inspector/check_outline_connectivity.py:42-131 | an entity is reported exactly when it is a line or arc, another line, circle or arc exists, its position lies inside the frame, and its end-point count is below two |
| OutlineConnectivity.BuiltEmpty | inspector/check_outline_connectivity.py:197-227 | no entity gets counters exactly when fewer than two lines, circles or arcs are on the outline layer |
| OutlineConnectivity.InspectionNone | inspector/check_outline_connectivity.py:32-44 | with the corrected per-type lists, the inspection fails exactly when extraction fails, or when there are counters to test and the frame has fewer than two corner points |
| OutlineConnectivity.InspectionAsWrittenNone | inspector/check_outline_connectivity.py:23-44 | as written, the inspection fails exactly when extraction fails, when the outline lacks lines, circles or arcs, or when there are counters to test and fewer than two frame points; with all three types present it agrees with the corrected inspection |
| OutlineConnectivity.Report | inspector/check_outline_connectivity.py:39-131 | the reporting loop gives the findings of all registered entities |
| OutlineConnectivity.ReportOne | inspector/check_outline_connectivity.py:42-131 | one loop pass extends the findings by those of the next registered entity and keeps the number one past their count |
| OutlineConnectivity.InspectDoc | inspector/check_outline_connectivity.py:23-136 | the inspection method gives the corrected Inspection, characterised by InspectionNone, FlaggedExactly and Findings; InspectionAsWrittenNone relates it to the source's failures |

## Left out

- Reading DXF files, `ezdxf` queries and entity attributes: drawings enter the model as values (`Entity`, `Drawing`, `LayerDef`), with entities taken as given.
- Drawing into the output document (`DrawTool`, hatches, markers, colours drawn), printing, the GUI windows, `test()` and `main()` entry points, and the inspectors whose whole body is a constant result.
- Paper space and block definitions: only model-space entities are modelled.
- OutlineConnectivity.ExtractContinuous: the source groups the entities of the whole document by layer (inspector/check_outline_connectivity.py:166), which also counts the entities of paper space and of block definitions, such as dimension or title-block geometry, when it picks the outline layer. The model counts only the entity list it is given, so the chosen layer can differ.
- BoundingBox.EntityClasses: the source queries the class names (`Arc`, `LWPolyline`, …; inspector/bounding_box.py:16, 31). The model matches the upper-case DXF type names, which assumes ezdxf's type query ignores case.
- Floating point: coordinates are exact reals; `sqrt`, `angle_deg`, `is_parallel`, `cos` and `sin` are the parameters of `Geometry.Lib`; rounding and the underflow of `math.pow` are not modelled; `rotate_deg(90)` is treated as exact.
- Python `set` order: `list(pointSet)` is the `enumerate` parameter, so a result that depends on that order is stated for every order the caller fixes.
- Exceptions: a raise is modelled as `None` or a failed `Outcome`; what Python does afterwards (the traceback, the caller's handler) is not.
- CheckTotal.InspectDoc: takes the four inspectors' result lists as inputs (the inspectors run on the drawing, outside this member) and returns the renumbered list; the drawing it also returns (inspector/check_total.py:38) is output only.
- FrameExtractor.DetectFrame: the extractor deletes the layer's LINE entities and adds the merged lines to model space (inspector/frame_extractor.py:82-88, 136-142); the model returns the merged lines and does not rewrite the drawing.
- Exploding polylines before the frame search and the out-of-frame check (inspector/frame_extractor.py:337-339, inspector/check_outer_object.py:42-44): the query string "LW POLYLINE" names the two types LW and POLYLINE, and exploding them is not modelled; entities are taken as given, after that step.
- BoundingBox: a LEADER box raises in the source (it reads attributes the entity does not have), and so does an empty LWPOLYLINE; both are excluded by `Boxable` rather than modelled.
- CheckOuterObject.Detect: an `OtherE` entity carrying a DXF type string equal to a tested type is not ruled out, so the detected type is stated only as one of the detected types.
- CheckTitleBlock: the in-place swap of shared ruling dictionaries (`make_left_start`) is modelled on values, by passing the swapped horizontals to the vertical pass; aliasing between the two lists is not modelled.
- CheckTitleBlock: an empty horizontal or vertical list makes the source raise `IndexError`; the model gives `OtherError`, which the report treats as the source's outer handler does.
- CheckTitleBlock: the generic failure result (inspector/check_titleblock.py:123) passes its description positionally, so it lands in the caption slot; the model follows the code (`Absent` has that text as its caption and an empty description).
- NonCrossLines.Analyze: when no routing exists the source pops from an empty list (`IndexError`); the model returns `None`, and the summary layout, which indexes that result (inspector/summarize_drawer.py:85-93), is modelled only when a routing exists.
- OutlineConnectivity: the circle branch tests the tag `'CORCLE'` (inspector/check_outline_connectivity.py:116), so circles never give findings; the model follows the code.
- OutlineConnectivity.IsInFrame: a frame result with fewer than two points raises `IndexError` (inspector/check_outline_connectivity.py:139-141); the inspection gives `None` then.
- OutlineConnectivity: the per-layer merges are concatenated and not merged again, and an entity gets no counters when no other LINE, CIRCLE or ARC is on the outline layer (it is never paired), so it is never reported; the model follows the code in both.
- Where a "## Findings" defect sits inside a larger operation, the operation is modelled with the corrected behaviour; the as-written behaviour is modelled only by the as-written members named there. The lines below name each operation this affects.
- BoundingBox.GetBB: an ARC gets the corrected `ArcBox`, not the box as written at inspector/bounding_box.py:106-123 (bottom from an x coordinate, no widening past 360 degrees).
- BoundingBox.DrawingBB: the least-box property is over the corrected arc boxes, so on a drawing with arcs the source's box can differ.
- SummarizeDrawer.Summarize: built on DrawingBB, so its box, scale and areas are those of the corrected arc boxes.
- CheckOuterObject.HitOf: an arc is marked at the corrected `MiddleAngle` (start + end) / 2, not at half the sweep as at inspector/check_outer_object.py:141.
- CheckOuterObject.Hits: arc hits carry the corrected marker (see HitOf); the count and order of hits are those of the source.
- CheckOuterObject.Detect.constructor: its results are OuterResults, whose arc markers are the corrected ones.
- CheckOuterObject.Detect.DetectOuterObject: as for the constructor, arc markers are the corrected ones.
- CheckOuterObject.Detect.DetectType: the ARC detector appends hits with the corrected marker.
- OutlineCalculator.CalInterCircleAndCircle: for internally touching circles the point is measured from the larger circle's centre, TOL beyond the touching point. The source's formula measures from the first circle's centre, which with the smaller circle first gives a point near neither circle: centre (1, 0) radius 1, then centre (0, 0) radius 2, gives (-0.01, 0). So when the centre distance is exactly the radius difference plus 2 TOL, which the source already sends to the touch branch, the model's point differs from the source's when the first radius is the smaller.
- OutlineCalculator.CalInterCircleAndArc: built on the corrected `CalInterCircleAndCircle`, so internally touching circle and arc give a point within 3 TOL of both where the source gives none.
- OutlineCalculator.CalInterArcAndArc: built on the corrected `CalInterCircleAndCircle`, with the same difference for internally touching arcs (a point within 3 TOL of both).
- OutlineConnectivity.Intersection.constructor: uses the corrected per-type lists (`TypeList`) and the corrected circle intersections; as written it raises `TypeError` when the outline lacks lines, circles or arcs (stated by IntersectionRaisesMeaning), and internally touching circles and arcs give no intersection.
- OutlineConnectivity.InspectionNone: characterises the corrected inspection; the source's additional failure on an outline that lacks a type is stated by InspectionAsWrittenNone.
- OutlineConnectivity.InspectDoc: returns the corrected Inspection, which gives findings on an outline that lacks a type where the source raises `TypeError`; InspectionAsWrittenNone states when the two differ.
- CheckTitleBlock.InspectDoc: follows the intended handlers; the crashes at inspector/check_titleblock.py:96 and :155 are stated only by ReportAsWrittenHidesSuspect and CornerFailureAsWrittenSkipsRetry.
- CheckTitleBlock.FindTitleBlockArea: a corner failure leads to the relaxed retry, as intended, not to the crash at inspector/check_titleblock.py:155.
- CheckTitleBlock: the result calls at inspector/check_titleblock.py:70-123 pass the ordinal as the first positional argument, which the constructor at inspector/check_result.py:14 has no parameter for; the model reads the arguments as the callers mean them (ordinal, type, error, position, caption, description).
- `areOverlappedLineAndLine` (inspector/check_outline_connectivity.py:667-678) is never called and is not part of this model.

## Findings

| source | as written | input that shows it | evidently intended | confidence | as-written member | corrected member |
|---|---|---|---|---|---|---|
| inspector/bounding_box.py:123 | the arc box's bottom is taken from an x coordinate | the quarter arc from 0 to 90 degrees around (10, 0), radius 1: bottom 10 above top 1 | the bottom is the lower y of the endpoints, or centre y minus radius when the arc passes 270 degrees | not executed | BoundingBox.ArcBottomUsesX | BoundingBox.ArcBoxSound |
| inspector/bounding_box.py:106-121 | a wrapped arc is widened only at 90, 180, 270 and 360 degrees, not at 450, 540 or 630 | the arc from 270 to 180 degrees around the origin, radius 1: the box's top stays at 0 below (0, 1) | each side reaches the circle whenever the arc passes that direction | not executed | BoundingBox.WrappedArcMissesTop | BoundingBox.ArcBoxSound |
| inspector/check_outline_connectivity.py:521-526 | `deltaG < 2 * TOL` classifies internally touching circles as disjoint | centre (0, 0) radius 2 and centre (1, 0) radius 1 | internal tangency gives one point within 3 TOL of both circles, as the test on the next branch expects: the larger radius plus TOL from the larger centre, towards the smaller one | not executed | OutlineCalculator.InternalTouchAsWrittenMissed | OutlineCalculator.InternalTouchFound |
| inspector/check_outline_connectivity.py:307 | `dict.get` gives `None` for a missing type, and the pair loops then raise `TypeError` (only `KeyError` and `IndexError` are caught) | a closed rectangle of four lines, with no circle and no arc | a missing type contributes no pairs | not executed | OutlineConnectivity.RectangleRaisesAsWritten | OutlineConnectivity.TypeList |
| inspector/check_outer_object.py:141 | the arc marker angle is half the sweep, `(end - start) / 2` | the arc from 80 to 100 degrees gets its marker at 10 degrees | the middle of the sweep, `(start + end) / 2` | not executed | CheckOuterObject.MiddleAngleAsWrittenOffArc | CheckOuterObject.MiddleAngleOnArc |
| inspector/check_titleblock.py:155 | the corner-failure handler prints `e.__name__` of an exception instance, which raises again and skips the relaxed retry | a drawing whose title-block corner is not found under the strict tolerance but is under the relaxed one | the corner failure raises `TitleBlockNotFoundError`, so the relaxed search runs | not executed | CheckTitleBlock.CornerFailureAsWrittenSkipsRetry | CheckTitleBlock.ReportSound |
| inspector/check_titleblock.py:96 | after a successful relaxed search the handler reads the misspelt `cls.inspect_type`, which raises, so the block is reported missing | a block whose horizontal ruling is found only under the relaxed tolerance | the block is reported as suspect at its right edge | not executed | CheckTitleBlock.ReportAsWrittenHidesSuspect | CheckTitleBlock.ReportSound |
