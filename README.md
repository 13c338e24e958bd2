# pdfiberdrola layout and table-matching engine, in Dafny

pdfiberdrola reads the inspection checklists of a wind-turbine maintenance contractor out of PDF
files and writes them as rows of an Excel workbook. It supports two kinds of checklist: MV
checklists and preventive checklists. This project models the engine between the PDF primitives
and the spreadsheet rows, and proves properties of it.

- **Geometry and segments** (`geometry.dfy`, `lines.dfy`). Boxes, the corner-in-box test and the
  parametric segment intersection of the layout utilities. Also `PDFLTLine`: its orientation,
  length, minimum distance, closeness test and tolerant intersection.
- **The component tree** (`components.dfy`, `primitives.dfy`). `PDFLTContainer.add` nests a
  component into the first child container holding its centre and keeps children sorted
  top-down, then left to right. `PDFLTRect.text` and `PDFLTRect.color` are modelled too.
- **The cell pipeline**, each stage a class whose `fit` and `predict` are proved against a
  value-level specification:
  - `PDFLTDecomposer` (`decomposer.dfy`) turns rects and lines into segments;
  - `PDFLTIntersections` and `PDFLTPointIntersect` (`intersections.dfy`) merge the segments'
    crossings into points at least the position tolerance apart, then rebuild cells from them;
  - `PDFLTComposer` (`composer.dfy`) places text, curves and figures into those cells without
    losing or duplicating any.
- **The grid builder** (`layout.dfy`). `PDFLayoutComposer`: groups ruling lines into horizontal
  and vertical ones, merges each cluster into a coordinate, and tiles the cells between
  consecutive coordinates.
- **The MV matcher** (`runs.dfy`, `mv_composer.dfy`, `mv.dfy`, `mv_result.dfy`).
  - Rows are grouped by `y0`, and red crosses are deduplicated.
  - Measure lines are regrouped inside their cells.
  - Location, element and measure rows are read into a result tree, which is flattened into
    14-column rows.
- **The preventive matcher** (`preventive_rows.dfy`, `preventive.dfy`, `preventive_result.dfy`).
  - Tolerances are chosen per page, and cells are grouped into rows by vertical overlap.
  - Rows are classified by their nearest reference colour.
  - A state machine (WTG section, sub-task, element) fills the result tree, which is flattened
    into 23-column rows.
- **The legacy text parser** (`legacy.dfy`). The document classifier, the line parser of MV
  pages and the grouping of intercepts into rows.
- **Scripts and utilities** (`excel.dfy`, `version_sync.dfy`).
  `resolve_excel_cell` turns "B4" into (2, 4). The version synchroniser reads `APP_VERSION` and
  rewrites the installer's `!define` lines and the configuration's `key=value` lines.

`outcomes.dfy`, `dicts.dfy`, `seqs.dfy`, `sorting.dfy` and `pystr.dfy` hold the shared vocabulary:
- Python exceptions are the values of a `Result`.
- Dictionaries are association lists in insertion order, because that order decides the order
  of the output rows.
- The string functions follow Python's `strip`, `lower`, `split` and `startswith` on ASCII text.
- The sort is stable, like Python's `sort`.

Where the source mutates state (point stores, rect stores, line lists, accumulators), the model
is a class or a method with loops, proved equal to a specification function. The properties are
lemmas about those functions.

## Model

| member | source | states |
|---|---|---|
| Geometry.Center | app/model/pdfs.py:129-131 | the centre of a normal box lies inside it, half-way between its left and right sides and between its bottom and top |
| Geometry.DistSq | app/model/pdfs.py:352-355 | the squared Euclidean distance behind `dist` is never negative |
| Geometry.DistSqSymmetric | app/model/pdfs.py:352-355 | `dist(p, q)` and `dist(q, p)` agree |
| Geometry.NearSelf | app/model/pdfs.py:352-355 | a point is within any non-negative tolerance of itself |
| Geometry.BBoxOverlapsCorner | app/utils/pdfs.py:134-180 | `bbox_overlaps` holds exactly when the lower-left corner of the first box lies in the second box |
| Geometry.BBoxOverlapsIgnoresTopRight | app/utils/pdfs.py:144-168 | the upper-right corner of the first box never changes the answer: both inner branches return True |
| Geometry.Intersect | app/utils/pdfs.py:207-232 | a zero denominator gives None, and any point returned lies on the first segment at a parameter in [0, 1] |
| Geometry.Intersection | app/utils/pdfs.py:234-241 | `intersection` of two segments: parallel segments give None, and a point found lies on the first segment at a parameter in [0, 1] |
| Geometry.IntersectInRange | app/utils/pdfs.py:216-232 | with a non-zero denominator the result is the point at ua when ua and ub both lie in [0, 1], and None otherwise |
| Geometry.IntersectHorizontalVertical | app/utils/pdfs.py:207-241 | a horizontal and a vertical segment that cross are reported as meeting at (x of the vertical, y of the horizontal) |
| Lines.LengthIsLargerSide | app/model/pdfs.py:241-257 | a line is horizontal exactly when it is wider than tall, and its length is the larger of width and height |
| Lines.MinDistanceSq | app/model/pdfs.py:311-344 | the distance from a point to a segment is non-negative and is the distance to some point of the segment (clamped parameter in [0, 1]) |
| Lines.MinDistanceOnSegment | app/model/pdfs.py:311-344 | every point of the segment is at distance zero from it |
| Lines.IntersectParam | app/model/pdfs.py:259-297 | near-parallel lines give None; a division by zero happens exactly when the cross product is 0 and the parallel tolerance is not positive; a reported point lies on the first line at t1, the spread is abs(t1 - t2), and either both parameters lie in [0, 1] or the point is within the position tolerance of both segments |
| Lines.IntersectParamInside | app/model/pdfs.py:278-297 | two non-parallel segments whose parameters both lie in [0, 1] are always reported |
| Lines.IntersectParamOnSecond | app/model/pdfs.py:281-297 | the reported point is also the point at t2 along the second segment |
| Lines.IsCloseSymmetric | app/model/pdfs.py:346-355 | `is_close` is symmetric in its two lines |
| Lines.ParamsMeet | app/model/pdfs.py:281-286 | when the cross product is not 0, the point at t1 along the first segment is the point at t2 along the second |
| Components.Children | app/model/pdfs.py:175-177 | `.children` succeeds exactly on containers and yields their children; on a line, curve or text line it is an AttributeError |
| Components.FirstContaining | app/model/pdfs.py:180-181 | the index found is the first child that is a container whose box contains the point; no earlier child qualifies |
| Components.Add | app/model/pdfs.py:179-185 | the container keeps its kind, box and style, the child ends up somewhere in the tree, the tree grows by exactly the child's components, and children sorted by (-y0, x0) stay sorted |
| Components.AddFlat | app/model/pdfs.py:184-185 | with no child container to descend into, the child becomes a direct child and the child count grows by one |
| Components.TextBoxFlags | app/model/pdfs.py:224 | one flag per child, true exactly for text boxes |
| Components.AnyConsumed | app/model/pdfs.py:225-227 | `any` on the shared iterator stops within the flags |
| Components.AnyConsumedSplit | app/model/pdfs.py:225-227 | when some flag is true, `any` stops just past the first true flag, and the remaining flags hold one true flag fewer |
| Components.CountZero | app/model/pdfs.py:227 | `any` is false exactly when no flag is true |
| Components.AnyThenNoneIsSingle | app/model/pdfs.py:225-227 | `any(itr) and not any(itr)` holds exactly when one child is a text box |
| Components.Text | app/model/pdfs.py:222-232 | curves and figures have no text (AttributeError); a rect whose children are neither all text boxes nor exactly one text box has the empty text |
| Components.KidsText | app/model/pdfs.py:229 | the children's texts, one per child, or the AttributeError of a child without text |
| Components.TextOnlyHasText | app/model/pdfs.py:222-232 | a tree without curves or figures always has a text |
| Components.LineTexts | app/model/pdfs.py:397-398 | one stripped text per text line, in order |
| Components.TextBoxOfLines | app/model/pdfs.py:373-374 | a text box's text is the newline join of its lines' stripped texts |
| Components.LinesText | app/model/pdfs.py:397-398 | the texts of text lines are their stripped raw texts and never fail |
| Components.RectColor | app/model/pdfs.py:235-237 | the fill colour when it is a tuple, otherwise white (1, 1, 1) |
| Components.AddInto | app/model/pdfs.py:181-184 | descending into a child that grows by the added component grows the container by it and keeps its children's order |
| Components.AddDirect | app/model/pdfs.py:185-186 | adding as a direct child and re-sorting grows the container by the child and leaves the children sorted |
| Components.AddToEmpty | app/model/pdfs.py:185-186 | a rect without children gets the component as its one child |
| Layout.LineBetween | app/core/layout.py:177-180 | a line built from two points has the plain style of the given width and a normal bounding box |
| Layout.DecomposeRectangle | app/core/layout.py:171-181 | four lines of the rect's width: bottom, left, right and top, each spanning the corresponding corners |
| Layout.GroupLines | app/core/layout.py:95-111 | the horizontal lines and the vertical lines, each in input order, are exactly the lines passing each test |
| Layout.GroupsDisjoint | app/core/layout.py:102-106 | no line passes both the horizontal and the vertical test, so the `elif` never hides a line |
| Layout.GroupsPartition | app/core/layout.py:102-106 | every line is horizontal, vertical or dropped, and exactly one of them |
| Layout.Coords | app/core/layout.py:141-143 | two end coordinates per line of the cluster |
| Layout.MergeCluster | app/core/layout.py:136-147 | an empty cluster raises ZeroDivisionError; otherwise the result is the mean of all end coordinates |
| Layout.MergeBetween | app/core/layout.py:136-147 | the merged coordinate lies between the smallest and the largest end coordinate of the cluster |
| Layout.Column | app/core/layout.py:160-165 | one cell per gap between horizontal coordinates, cell j bounded by coordinates j and j + 1 |
| Layout.GridSize | app/core/layout.py:159-166 | the grid has (nv - 1) times (nh - 1) cells, none when either side has fewer than two coordinates |
| Layout.GridAt | app/core/layout.py:159-166 | cell (i, j) sits at position i * (nh - 1) + j: vertical index first, then horizontal |
| Layout.SortedAscending | app/core/layout.py:154-155 | `sorted` puts the merged coordinates in ascending order |
| Layout.CellsTile | app/core/layout.py:154-166 | on sorted coordinates every cell is a proper box and neighbouring cells share their common side |
| Layout.ComposeBBox | app/core/layout.py:150-166 | the cells are the grid of the sorted vertical and horizontal coordinates |
| Layout.ColumnCells | app/core/layout.py:160-165 | the inner loop gives the cells of one column, cell j between horizontal coordinates j and j + 1 |
| Runs.RowAt | app/core/mv.py:296-301 | `next(lines_iter, None)` gives the next row while there is one; past the end the `len` of None raises TypeError |
| Runs.RunsOf | app/core/mv.py:700-707 | grouping builds a row exactly when there is input, and no row is empty |
| Runs.RunsFlatten | app/core/mv.py:700-707 | nothing is lost, duplicated or reordered: the rows concatenate back to the input |
| Runs.RunsJoin | app/core/mv.py:700-707 | every element of a row is related to the row's first element, and every row's first element is unrelated to the previous row's first element |
| Runs.GroupRuns | app/core/mv.py:700-707 | the grouping loop builds exactly the rows of the grouping function |
| Runs.RunsOfEqualKeys | app/core/mv.py:700-707 | with keys in order and rows joined on equal keys, the rows' keys strictly increase |
| Runs.FlattenAt | app/core/mv.py:700-707 | element k of row i sits at position Start(i) + k of the input, and earlier rows end before it |
| Decomposer.RectSidesOnBoundary | app/model/pdfs.py:749-766 | a rect gives four lines of its own style on its boundary: two vertical ones as tall as the rect, then two horizontal ones as wide as it |
| Decomposer.SegmentsCount | app/model/pdfs.py:721-731 | four segments per rect and one per standalone line |
| Decomposer.SegmentOrigin | app/model/pdfs.py:721-731 | every segment comes from a rect or a line of the page |
| Decomposer.PDFDecomposer.constructor | app/model/pdfs.py:717-719 | a new decomposer holds the minimum line length and no components |
| Decomposer.PDFDecomposer.Fit | app/model/pdfs.py:735-742 | the components become the page's objects sorted by (y1, x0) |
| Decomposer.PDFDecomposer.Predict | app/model/pdfs.py:721-733 | the sides of every rect, then every line, kept when longer than the minimum line length, in that order |
| Decomposer.CollectRectSides | app/model/pdfs.py:722-725 | the loop over the rects computes the specified sides of every rect, in page order |
| Decomposer.CollectLines | app/model/pdfs.py:727-731 | the comprehension computes one segment per standalone line, in page order |
| Decomposer.KeepLonger | app/model/pdfs.py:733 | the segments kept are those longer than the minimum line length, in order, and every one is longer than it |
| Intersections.AddLineTo | app/model/pdfs.py:459-478 | offering a line to one orientation's list leaves it unchanged when a close line is there and appends it otherwise; the list only grows at the end and never gains two close lines |
| Intersections.WithLineKeeps | app/model/pdfs.py:453-478 | `add_line` files every line under its own orientation, keeps both lists free of close duplicates and only appends |
| Intersections.WithLinesKeeps | app/model/pdfs.py:480-486 | `add_lines` keeps the same invariant as `add_line` and only appends |
| Intersections.FindNear | app/model/pdfs.py:695-696 | the stored point found is within the tolerance of the new point, and no earlier stored point is |
| Intersections.AddSpecKeeps | app/model/pdfs.py:687-699 | `_add` keeps stored points pairwise more than the tolerance apart, moves or drops no point, only appends lines, and adds at most one point |
| Intersections.AddSpecCovers | app/model/pdfs.py:687-699 | after `_add` some stored point lies within the tolerance of the intersection point |
| Intersections.FitSpecKeeps | app/model/pdfs.py:659-685 | after `fit` the stored points stay separated and well filed, and no point has moved or been dropped |
| Intersections.InnerSpecNoError | app/model/pdfs.py:668-683 | with a positive direction tolerance, meeting one line with the rest never raises |
| Intersections.OuterSpecNoError | app/model/pdfs.py:665-683 | with a positive direction tolerance, the popping loop never raises |
| Intersections.FitSpecNoError | app/model/pdfs.py:659-685 | `fit` raises only when a zero cross product is divided by, which needs a parallel tolerance that is not positive |
| Intersections.InnerSpecErrSticks | app/model/pdfs.py:668-683 | an error raised by an earlier pair ends the inner loop |
| Intersections.OuterSpecErrSticks | app/model/pdfs.py:665-683 | an error raised by an earlier line ends `fit` |
| Intersections.FitSpecCovers | app/model/pdfs.py:663-683 | every crossing `fit` accepts, between a line and any later line in `-y0` order, is represented by a stored point within the position tolerance |
| Intersections.Span | app/model/pdfs.py:644-647 | the box built from two corners is normal and contains both |
| Intersections.SearchTR | app/model/pdfs.py:615-641 | a cell found by the top-right loop carries the popped point's index and the given bottom-left point |
| Intersections.SearchBL | app/model/pdfs.py:578-591 | a cell found by the bottom-left loop carries the popped point's index |
| Intersections.PopStep | app/model/pdfs.py:564-591 | a cell found for a popped point carries that point's index |
| Intersections.KeepBig | app/model/pdfs.py:593-598 | every cell kept is at least the minimum width and height |
| Intersections.PredictLoopErrSticks | app/model/pdfs.py:564-591 | an error raised while popping one point ends `predict` |
| Intersections.SearchTRAnchored | app/model/pdfs.py:600-641 | a cell found by `_compute_rect` is witnessed: its top-right point lies to the right and is joined by a horizontal edge, a point exists at the bottom-right corner that both reach by an edge, and the box spans bottom-left and top-right |
| Intersections.SearchBLAnchored | app/model/pdfs.py:578-591 | a cell found by the bottom-left loop is witnessed as above, its bottom-left point lying below and joined by a vertical edge |
| Intersections.PopStepAnchored | app/model/pdfs.py:564-591 | the cell found for a popped point is anchored at that point |
| Intersections.PredictLoopShape | app/model/pdfs.py:564-591 | at most one cell per popped point, in the order the top-left points were popped |
| Intersections.PredictLoopAnchored | app/model/pdfs.py:564-591 | every cell found while popping is anchored at its top-left point |
| Intersections.PredictSpecFacts | app/model/pdfs.py:561-598 | `predict` builds at most one cell per point, each anchored and at least the minimum width and height |
| Intersections.SearchBLFirst | app/model/pdfs.py:578-591 | bottom-left candidates are tried in deque order and the first that closes a cell wins |
| Intersections.CandidatesOrdered | app/model/pdfs.py:569-576 | in `(-y, x)` deque order the bottom-left candidates come highest first and the top-right candidates leftmost first |
| Intersections.SearchTRStep | app/model/pdfs.py:615-641 | one turn of the top-right loop either closes the cell (reading the first vertical line's style, an IndexError when there is none) or moves to the next candidate |
| Intersections.SearchBLStep | app/model/pdfs.py:578-591 | one turn of the bottom-left loop skips a candidate without a vertical edge, stops on an error or a cell, and moves on otherwise |
| Intersections.PointIntersect.constructor | app/model/pdfs.py:440-451 | a new point files its lines under their orientations, in order |
| Intersections.PointIntersect.AddLine | app/model/pdfs.py:453-478 | the point's state becomes the state `add_line` specifies |
| Intersections.PointIntersect.AddLines | app/model/pdfs.py:480-486 | the point's state becomes the state `add_lines` specifies |
| Intersections.PointIntersect.EdgeExistsBetween | app/model/pdfs.py:488-502 | true exactly when some line of the orientation passes within the tolerance of the point |
| Intersections.PDFIntersections.constructor | app/model/pdfs.py:557-559 | a new finder holds its tolerances and minimum sizes and no points |
| Intersections.PDFIntersections.Add | app/model/pdfs.py:687-699 | the stored points become those `_add` specifies; only fresh objects join |
| Intersections.PDFIntersections.MeetPair | app/model/pdfs.py:669-683 | one pair of the double loop updates the points as specified, or raises the specified error |
| Intersections.PDFIntersections.MeetAll | app/model/pdfs.py:668-683 | meeting one line with the rest updates the points as specified, or raises the specified error |
| Intersections.PDFIntersections.Fit | app/model/pdfs.py:659-685 | `fit` updates the points as specified, or raises the specified error |
| Intersections.PDFIntersections.AsDeque | app/model/pdfs.py:701-703 | the deque is the stored points sorted by (-y, x), a permutation of them |
| Intersections.PDFIntersections.Predict | app/model/pdfs.py:561-598 | the cells are those `predict` specifies on the points in deque order |
| Intersections.ScanEdges | app/model/pdfs.py:494-502 | the scan answers whether some line of the orientation passes within the tolerance |
| Intersections.ScanPoints | app/model/pdfs.py:649-657 | the scan answers whether some point of the deque lies within the tolerance |
| Intersections.ClosesAt | app/model/pdfs.py:617-632 | the checks on one top-right candidate |
| Intersections.ComputeRectScan | app/model/pdfs.py:600-641 | the loop computes `_compute_rect` as specified |
| Intersections.PopScan | app/model/pdfs.py:566-591 | the loop computes one popped point's cell as specified |
| Intersections.PredictScan | app/model/pdfs.py:561-598 | the loop computes `predict` as specified |
| Intersections.ToRect | app/model/pdfs.py:644-647 | a found cell becomes a childless rect with the cell's box and style |
| Intersections.PopsFacts | app/model/pdfs.py:564-591 | every cell a pop of the deque finds carries the popped point's index and is anchored at it |
| Intersections.PDFIntersections.FindPoint | app/model/pdfs.py:695-696 | the scan stops at the first stored point within the position tolerance of the new point, or past the end when there is none |
| Intersections.PDFIntersections.MergeAt | app/model/pdfs.py:696-698 | merging lines into a found point changes that point alone, by `add_lines`, and keeps the list of points |
| Intersections.PDFIntersections.AppendPoint | app/model/pdfs.py:699 | a new point holding the given lines joins the end of the stored points |
| Intersections.PDFIntersections.MeetLine | app/model/pdfs.py:665-683 | one popped line met with every later line advances `fit` by one line, or raises the error that ends `fit` |
| Intersections.PDFIntersections.MeetSorted | app/model/pdfs.py:665-683 | the double loop on the sorted lines yields the specified points, or raises the specified error |
| Intersections.PredictStep | app/model/pdfs.py:564-591 | one pop extends the cells found so far by the popped point's cell, if any, or raises its error |
| Intersections.PredictAll | app/model/pdfs.py:564-591 | the popping loop collects the cells specified for the deque, or the first error raised |
| Composer.FirstKid | app/model/pdfs.py:180-181 | the child found is the first container child whose box contains the point; no earlier child qualifies |
| Composer.AddKid | app/model/pdfs.py:179-185 | adding to a rect of the list keeps the store's shape and every reference inside it; a descent through more rects than the list holds (a cycle, which never ends in the source) is a RecursionError |
| Composer.AddKidWeight | app/model/pdfs.py:179-185 | `add` loses and duplicates nothing: the store grows by exactly the child |
| Composer.Home | app/model/pdfs.py:889-895 | the rect found is the first that is not the component, contains its centre and has a strictly larger area; no earlier rect qualifies |
| Composer.AssignSpec | app/model/pdfs.py:881-899 | assigning components keeps the store's shape and references; every component returned was offered; errors are RecursionErrors |
| Composer.AssignRemaining | app/model/pdfs.py:881-899 | the components returned are exactly those no rect fits, in their original order |
| Composer.AssignWeight | app/model/pdfs.py:881-899 | each component ends up in the store or among the returned ones, exactly once |
| Composer.FirstHolding | app/model/pdfs.py:867-871 | the rect found is the first whose box contains the point; no earlier rect does |
| Composer.LinesSpec | app/model/pdfs.py:852-873 | the line loop's state always heads for a rect of the list, if any |
| Composer.LineNodes | app/model/pdfs.py:852-853 | one text line per pdfminer line, in order, with its box and raw text |
| Composer.AddIntoLines | app/model/pdfs.py:860 | a text box holding only text lines gains exactly the line added to it |
| Composer.LinesSpecKeepsLines | app/model/pdfs.py:852-873 | every line read is in exactly one box, sent off or being filled, and boxes hold only text lines |
| Composer.BoxEmitsKeepLines | app/model/pdfs.py:847-878 | every line of a text box is in exactly one of the boxes it sends off, and only its lines are |
| Composer.BoxesKeepFrame | app/model/pdfs.py:849-864 | every box a text box sends off has that text box's bounding box |
| Composer.ApplyEmits | app/model/pdfs.py:875-878 | applying sent-off boxes keeps the store's shape and references and returns only components held by value |
| Composer.ApplyEmitsKeeps | app/model/pdfs.py:875-879 | every sent-off box is added to its rect or returned, the returned ones being those without a rect, in order |
| Composer.TextPass | app/model/pdfs.py:843-879 | the text pass keeps the store's shape and references and returns only text boxes held by value |
| Composer.TextEmitsTargets | app/model/pdfs.py:847-878 | every box sent off in the text pass is headed for a rect of the list, if any |
| Composer.Wrap | app/model/pdfs.py:822-827 | a leftover component is wrapped in a plain rect of its own box holding only it, which adds one component |
| Composer.WrapAll | app/model/pdfs.py:821-827 | one wrapper per leftover component, in order |
| Composer.WrapAllWeight | app/model/pdfs.py:821-827 | wrapping adds exactly one rect per component |
| Composer.NestSpec | app/model/pdfs.py:782-784 | the first pass nests the rects of the list into one another; the rects left over are exactly those that fit in no other rect, in list order |
| Composer.TopsInRange | app/model/pdfs.py:782-784 | the rects left over by the first pass are positions of the list |
| Composer.SweepSpec | app/model/pdfs.py:786-809 | the text, curve and figure passes keep the store's shape and return only components held by value |
| Composer.PlaceSpec | app/model/pdfs.py:786-830 | the later passes return only wrappers |
| Composer.PredictSpec | app/model/pdfs.py:774-833 | `predict` keeps the store's shape; its result is sorted by (-y1, x0) and holds rects of the list that fit in no other rect and wrappers around components no rect took |
| Composer.OutputShape | app/model/pdfs.py:831-833 | the merged leftovers sorted by (-y1, x0) have the shape `predict` promises |
| Composer.FindHome | app/model/pdfs.py:889-895 | the inner loop of `_assign_components_to_rects` finds the rect the specification names |
| Composer.FindHolding | app/model/pdfs.py:867-871 | the inner loop of `_assign_text_boxes_to_rects` finds the rect the specification names |
| Composer.AssignErrSticks | app/model/pdfs.py:885-897 | an error in an earlier component ends the pass |
| Composer.AssignComponents | app/model/pdfs.py:881-899 | the loop computes `_assign_components_to_rects` as specified |
| Composer.ScanLines | app/model/pdfs.py:852-878 | the line loop over one text box sends off the boxes the specification names |
| Composer.ApplyErrSticks | app/model/pdfs.py:875-878 | an error while adding an earlier box ends the pass |
| Composer.ApplyAll | app/model/pdfs.py:875-878 | the boxes sent off, added in order, give the specified store |
| Composer.CollectEmits | app/model/pdfs.py:847-878 | the line scans of all text boxes, in order |
| Composer.AssignTextBoxes | app/model/pdfs.py:843-879 | the loop computes `_assign_text_boxes_to_rects` as specified |
| Composer.WrapEach | app/model/pdfs.py:821-827 | the wrapping loop gives the specified wrappers |
| Composer.Sweep | app/model/pdfs.py:786-809 | the three passes give the specified store and leftovers |
| Composer.Place | app/model/pdfs.py:786-831 | the later passes give the specified store and leftovers |
| Composer.PDFComposer.constructor | app/model/pdfs.py:770-772 | a new composer holds no rects |
| Composer.PDFComposer.Fit | app/model/pdfs.py:835-841 | the rects become the given rects sorted by (-y0, x0), without children |
| Composer.PDFComposer.Predict | app/model/pdfs.py:774-833 | the result and the new children are those `predict` specifies; on an error the children are unchanged |
| Composer.AssignOne | app/model/pdfs.py:886-897 | one popped component extends the specified assignment by one, and a pass over non-leaf components keeps the store free of leaves |
| Composer.ScanLine | app/model/pdfs.py:852-873 | one text line advances the line loop's state as specified |
| Composer.Compose | app/model/pdfs.py:774-833 | the passes over rects without children give the result `predict` specifies |
| MvComposer.RedLines | app/core/mv.py:185-190 | every segment kept is red (a list colour equal to [1, 0, 0]) and every red line of the page is kept |
| MvComposer.KeptCrosses | app/core/mv.py:192-215 | every cross kept is one of the red lines |
| MvComposer.KeptSeparated | app/core/mv.py:203-215 | no kept cross has its centre in the box of a cross kept before it |
| MvComposer.KeptCover | app/core/mv.py:192-215 | every red line, kept or skipped, has its centre in the box of some kept cross |
| MvComposer.CurvesOf | app/core/mv.py:208-214 | one curve per kept cross, over the segment and in the segment's style |
| MvComposer.ComputeCrosses | app/core/mv.py:181-215 | the deque loop builds exactly the specified crosses, in order |
| MvComposer.LineWidth | app/core/mv.py:105 | `.element.linewidth` exists exactly on rects and curves; other children raise AttributeError |
| MvComposer.Span | app/core/mv.py:91-94 | the running min/max box holds both boxes |
| MvComposer.Hull | app/core/mv.py:87-104 | the box built from the children's extremes holds every child |
| MvComposer.AddAll | app/core/mv.py:109 | adding the line's children one by one keeps the rect's box and kind and grows it by exactly those children |
| MvComposer.LineRect | app/core/mv.py:106-110 | the new line rect has the given box and holds exactly its children and itself |
| MvComposer.Splice | app/core/mv.py:111-115 | replacing the run by the line rect leaves the other children and accounts for every component |
| MvComposer.SpliceProgress | app/core/mv.py:111-116 | replacing a run by a rect holding exactly that run shortens the remaining work and loses nothing |
| MvComposer.FirstRect | app/core/mv.py:90-118 | the scan stops at the first rect at or after the position, or at the end |
| MvComposer.YesStep | app/core/mv.py:83-118 | the "Yes" branch makes progress; a rect in last place has no child after it and raises IndexError |
| MvComposer.ScanChild | app/core/mv.py:132-161 | one child of the scan either keeps the scan's invariant at the next position or ends it with a finished gathering; only a text child can raise |
| MvComposer.TextScan | app/core/mv.py:132-161 | a scan that ends has gathered a finished run starting at the text box |
| MvComposer.ScanFrom | app/core/mv.py:119-161 | the scan after a text box ends with a finished gathering |
| MvComposer.TextStep | app/core/mv.py:119-177 | the text branch, with the line made of the contiguous run it took, makes progress and loses nothing; built on the corrected text branch, not the code as written (see the first row of ## Findings) |
| MvComposer.LineOfRun | app/core/mv.py:163-175 | the line of the run from the text box to the last child taken makes progress and loses nothing; built on the corrected text branch, not the code as written (see the first row of ## Findings) |
| MvComposer.StepAt | app/core/mv.py:80-177 | every pass of the loop over a cell's children makes progress and loses nothing; built on the corrected text branch, not the code as written (see the first row of ## Findings) |
| MvComposer.RegroupFrom | app/core/mv.py:79-177 | regrouping a cell's children loses no component; built on the corrected text branch, not the code as written (see the first row of ## Findings) |
| MvComposer.RegroupCell | app/core/mv.py:75-177 | a cell keeps its box and none of its components is lost; built on the corrected text branch, not the code as written (see the first row of ## Findings) |
| MvComposer.RegroupAll | app/core/mv.py:75-179 | every cell keeps its box and none of its components is lost; built on the corrected text branch, not the code as written (see the first row of ## Findings) |
| MvComposer.FindRect | app/core/mv.py:90-97 | the scan for the rect finds the first rect at or after the position |
| MvComposer.ScanText | app/core/mv.py:131-161 | the scan loop gathers what the specification names |
| MvComposer.YesLine | app/core/mv.py:83-118 | the "Yes" branch computes the specified step |
| MvComposer.RegroupStep | app/core/mv.py:80-177 | one pass of the loop computes the specified step; built on the corrected text branch, not the code as written (see the first row of ## Findings) |
| MvComposer.RegroupChildren | app/core/mv.py:79-177 | the loop over a cell's children computes the specified regrouping; built on the corrected text branch, not the code as written (see the first row of ## Findings) |
| MvComposer.RegroupCells | app/core/mv.py:75-179 | the loop over the cells computes the specified regrouping; built on the corrected text branch, not the code as written (see the first row of ## Findings) |
| MvComposer.CaptionScan | app/core/mv.py:131-161 | after a caption, a numbered value and its box, a second caption that is not a number stops the scan with `end_idx` pointing at it |
| MvComposer.CaptionLineAsWritten | app/core/mv.py:163-175 | as written, one rect replaces all four children although it holds only three |
| MvComposer.CaptionLineOfRun | app/core/mv.py:163-175 | with the contiguous run, one rect holds the first three children and the fourth follows it |
| MvComposer.AsWrittenDropsCaption | app/core/mv.py:131-175 | as written, seven components go in and six come out: the second caption is lost |
| MvComposer.RunKeepsCaption | app/core/mv.py:131-175 | with the contiguous run, the second caption stays in the cell and nothing is lost |
| MvComposer.ScanRest | app/core/mv.py:132-161 | the scan from any child on, while the scan's invariant holds, gathers what the specification names |
| MvComposer.TextScanStep | app/core/mv.py:132-161 | one child of the scan either raises and ends it, stops it with what was gathered, or moves it to the next child |
| MvComposer.RegroupOne | app/core/mv.py:75-177 | a component that is not a container raises AttributeError, a cell with at most one child is kept, and any other cell is regrouped as specified; built on the corrected text branch, not the code as written (see the first row of ## Findings) |
| MvComposer.RegroupAllStep | app/core/mv.py:75-179 | one cell of the loop either raises and ends it, or is regrouped, keeping its box and components, and the loop goes on; built on the corrected text branch, not the code as written (see the first row of ## Findings) |
| MvComposer.YesUpTo | app/core/mv.py:90-118 | once the scan for the rect stopped, the "Yes" branch makes progress, and a rect in last place raises IndexError |
| MvComposer.ShapeScan | app/core/mv.py:131-161 | over a caption, a number, a box and a second caption that is not a number, the scan takes the first three children and stops at the fourth |
| MvComposer.TextStepAsWritten | app/core/mv.py:131-175 | as written, a grouping replaces the children from the text box up to the one that stopped the scan by a rect that holds only the children taken |
| MvComposer.LineAsWritten | app/core/mv.py:163-175 | as written, `children[i:end_idx + 1]` gives way to one rect holding only the children taken, while a scan that took only the text box moves on without change |
| MvMatcher.DropMargins | app/core/mv.py:709-711 | `lines[2:-2]` drops the two first and the two last rows: nothing is left from four rows or fewer, and row i of the result is row i + 2 |
| MvMatcher.PageRowsWithin | app/core/mv.py:700-707 | within a row every cell's y0 is within `position_tol` of the first cell's, and the first cells of consecutive rows are farther apart than that |
| MvMatcher.PageRowsContiguous | app/core/mv.py:700-711 | the rows kept are a contiguous run of the layout: nothing in between is lost, duplicated or reordered |
| MvMatcher.FirstText | app/core/mv.py:306-311 | a text is read exactly when the cell's first child is a text box, and it is that child's text |
| MvMatcher.CellValue | app/core/mv.py:306-311 | a header value is a stripped text: it neither starts nor ends with whitespace |
| MvMatcher.Page1 | app/core/mv.py:280-387 | running out of rows raises TypeError and a short value row the match exception; a match reads rows 2, 4 and 6 of at least two, three and three cells, and each header field is the value of its cell |
| MvMatcher.Page1Prefix | app/core/mv.py:280-387 | only the first value rows are read: rows after them never change the header |
| MvMatcher.LocationKey | app/core/mv.py:413 | the task key is upper case: it holds no lower-case letter |
| MvMatcher.LocationRow | app/core/mv.py:396-416 | a one-cell row must be a rect; it leaves the element and header alone, makes the location the current task, creates it only when new and never overwrites an existing task |
| MvMatcher.OpenElement | app/core/mv.py:424-441 | a missing current task is exactly the KeyError case; the stripped lowercased text (or the current element when empty) becomes the current element, created empty only when new, and nothing else changes |
| MvMatcher.WithField | app/core/mv.py:449-487 | writing a description, remark, tool or status field keeps the element's number and measures |
| MvMatcher.Current | app/core/mv.py:449-451 | the current element exists exactly when its task and element keys are stored, and otherwise the lookup raises KeyError |
| MvMatcher.Store | app/core/mv.py:449-451 | replacing the current element keeps the header and the task keys |
| MvMatcher.SetField | app/core/mv.py:449-451 | setting a field fails exactly when the current element is missing (KeyError), and otherwise changes only that field of the current element |
| MvMatcher.FieldFromCell | app/core/mv.py:444-478 | a field is read from a cell only when the cell is a container |
| MvMatcher.ElementHead | app/core/mv.py:424-451 | the element's number and description cells keep the header, and the description cell is a container |
| MvMatcher.CurveStatus | app/core/mv.py:489-511 | "OK" when the stroke colour is strictly nearer green than red, "NOT OK" otherwise; a colour of fewer than three components raises IndexError, a grey level or no colour TypeError |
| MvMatcher.GreenerIffRedBelowGreen | app/core/mv.py:492-511 | a mark is nearer green than red exactly when its red component is below its green one |
| MvMatcher.StatusFromCell | app/core/mv.py:481-511 | a text-box first child sets the status to its stripped text, and a curve to its colour verdict; each fails exactly when reading that child or the current element fails; an empty cell or any other first child leaves the result unchanged |
| MvMatcher.ValueUnit | app/core/mv.py:560-569 | a text starting with `+` or `-` gives as value its first whitespace-separated word and as unit the word after the whitespace that follows, or "" when only whitespace follows; any other text is the value with no unit |
| MvMatcher.YesNo | app/core/mv.py:576-596 | a checkbox with fewer than five children raises the match exception (UnboundLocalError without a name); otherwise Yes wins over No and neither ticked gives "" |
| MvMatcher.OddOptionsFail | app/core/mv.py:599-626 | options come in label and value pairs: an odd number of children leaves the last label without a value rect and raises |
| MvMatcher.MeasureReading | app/core/mv.py:548-626 | a value rect gives no options, and a second child that is neither a rect nor a text box reads as nothing |
| MvMatcher.MeasureName | app/core/mv.py:525-529 | a measure has a name exactly when its first child is a text box |
| MvMatcher.OpenMeasure | app/core/mv.py:530-541 | opening a measure fails exactly when the current element is missing, and the current element then still exists |
| MvMatcher.Record | app/core/mv.py:628-635 | recording a reading fails exactly when the current element is missing |
| MvMatcher.MeasureSpec | app/core/mv.py:514-637 | a measure of more than one child without a name fails, and a measure never changes the header |
| MvMatcher.TaskOrElement | app/core/mv.py:390-402 | an empty row or a row of two to four cells raises the match exception, and a one-cell row is a location row |
| MvMatcher.HeaderEnd | app/core/mv.py:662-676 | the position after the table header lies between the starting position and the end of the rows |
| MvMatcher.PageN | app/core/mv.py:640-660 | a page with fewer than two rows raises TypeError, and a title row not starting with a rect the match exception |
| MvMatcher.MvDocument | app/core/mv.py:219-277 | every row of the MV sheet has the sheet's width |
| MvMatcher.StoreKeyed | app/core/mv.py:449-451 | replacing the current element keeps every task's section equal to its key and every element's number equal to its key |
| MvMatcher.SetFieldKeyed | app/core/mv.py:449-487 | setting a field keeps every record under its own key |
| MvMatcher.LocationRowKeyed | app/core/mv.py:413-416 | a location row keeps every record under its own key |
| MvMatcher.OpenElementKeyed | app/core/mv.py:424-441 | opening an element keeps every record under its own key |
| MvMatcher.OpenMeasureKeyed | app/core/mv.py:530-541 | opening a measure keeps every record under its own key |
| MvMatcher.RecordKeyed | app/core/mv.py:628-635 | recording a reading keeps every record under its own key |
| MvMatcher.MeasureSpecKeyed | app/core/mv.py:514-637 | matching a measure keeps every record under its own key |
| MvMatcher.TaskOrElementKeyed | app/core/mv.py:390-511 | matching a row keeps every record under its own key |
| MvMatcher.RowsFromKeyed | app/core/mv.py:677-681 | matching the rows of a page keeps every record under its own key |
| MvMatcher.PagesFromKeyed | app/core/mv.py:227-231 | matching the pages keeps every record under its own key |
| MvMatcher.DocumentKeyed | app/core/mv.py:219-277 | in the matched document every task's section and every element's number is its key, so the flattened rows carry them consistently |
| MvMatcher.GroupRows | app/core/mv.py:700-711 | the grouping loop and the slice give the page's rows |
| MvMatcher.CollectOptions | app/core/mv.py:599-626 | the option loop reads the options the specification names |
| MvMatcher.PutEach | app/core/mv.py:632-635 | the loop stores each option as a measure, as specified |
| MvMatcher.ReadMeasure | app/core/mv.py:514-637 | the method computes one measure as specified |
| MvMatcher.MatchMeasures | app/core/mv.py:453-458 | the measure loop matches the description cell's children as specified |
| MvMatcher.MatchTaskOrElement | app/core/mv.py:390-511 | the method matches one row as specified |
| MvMatcher.MatchPageN | app/core/mv.py:640-685 | the title test and the two loops match a later page as specified |
| MvMatcher.MatchPage | app/core/mv.py:688-732 | one page is grouped into rows and matched as specified |
| MvMatcher.MatchMvPdf | app/core/mv.py:219-277 | every page in turn, then the flattening loop, as specified |
| MvMatcher.FindHeaderEnd | app/core/mv.py:663-675 | the loop from row 2 stops at the first row whose first rect's text starts with `#`, or fails on a row without a leading rect, as specified |
| MvMatcher.MatchRows | app/core/mv.py:677-681 | the loop over the rows after the header matches them in turn as specified |
| MvMatcher.PagesFromStep | app/core/mv.py:228-231 | a page's error ends the document, otherwise the next page starts from the state and result this one leaves |
| MvMatcher.MatchPages | app/core/mv.py:226-231 | the loop over the pages matches them in turn as specified |
| MvMatcher.GrowKeyed | app/core/mv.py:424-441 | opening a new element under its own number keeps every element under its own key |
| MvMatcher.PageSpecKeyed | app/core/mv.py:227-231 | matching one page keeps every record under its own key |
| MvMatcher.PageNKeyed | app/core/mv.py:640-685 | matching a later page keeps every record under its own key |
| MvMatcher.ValueWords | app/core/mv.py:563-566 | the first two fields of `split()` on a signed text are its leading words: the value is the word at the start, the unit the word after the whitespace that follows it, or "" exactly when only whitespace follows |
| MvMatcher.ValueUnitJoined | app/core/mv.py:563-566 | a signed value and a unit written with a space between them are read back as that value and that unit |
| MvResult.MeasureRowsShape | app/core/mv.py:252-274 | one row per measure, in insertion order, each carrying that measure |
| MvResult.TaskRowsShape | app/core/mv.py:233-274 | a task gives one row per element plus one per measure, all 14 columns wide |
| MvResult.AllRowsShape | app/core/pdfs.py:481-518 | the same flattening, in the legacy parser too: every row has the 14 columns of the MV sheet, and there is one row per element plus one per measure |
| MvResult.FillRows | app/core/mv.py:232-274 | the flattening loop gives, task by task and element by element, the element's row and then one row per measure |
| PreventiveResult.SubtaskRowsShape | app/core/preventive.py:106-153 | a sub-task gives one row per element, in order, each carrying that element |
| PreventiveResult.TaskRowsShape | app/core/preventive.py:106-153 | a section gives one row per (sub-task, element) pair, all 23 columns wide |
| PreventiveResult.AllRowsShape | app/core/preventive.py:106-153 | every row has the 23 columns, and there is exactly one row per (section, sub-task, element) triple |
| PreventiveResult.RowsSignedAndPadded | app/core/preventive.py:106-153 | on every row the signature columns hold "OK" or "NO OK" and the last three cells are empty |
| PreventiveResult.TaskRowsPadded | app/core/preventive.py:106-153 | the rows of one section are signed and padded the same way |
| PreventiveResult.FillRows | app/core/preventive.py:106-153 | the flattening loop gives one row per element, section by section and sub-task by sub-task, in insertion order |
| MvResult.FillTask | app/core/mv.py:233-274 | the loop over a task's elements gives each element's rows in turn |
| MvResult.FillElement | app/core/mv.py:234-274 | one element gives its own row, then one row per measure in insertion order |
| PreventiveResult.FillTask | app/core/preventive.py:107-153 | the loop over a section's sub-tasks gives each sub-task's rows in turn |
| PreventiveResult.FillSubtask | app/core/preventive.py:108-153 | one sub-task gives one row per element in insertion order |
| PreventiveResult.SubtaskRowsPadded | app/core/preventive.py:109-153 | the rows of one sub-task are signed and padded |
| LegacyParser.ResolvePdfType | app/core/pdfs.py:392-400 | a first line that starts with "preventive" is an MV checklist, one that only contains it further on is a preventive checklist, anything else is unknown |
| LegacyParser.ResolveFirstLineOnly | app/core/pdfs.py:392-400 | only the first line decides: text after the first newline is never looked at |
| LegacyParser.TaskKey | app/core/pdfs.py:89-97 | the task key of a `Location:` line is upper case |
| LegacyParser.OpenTask | app/core/pdfs.py:90-96 | the task is stored afterwards; an existing task is kept as it was, a new one appended empty |
| LegacyParser.OpenElement | app/core/pdfs.py:103-116 | a numbered line fails exactly when it has no description field or the task is missing |
| LegacyParser.LineEdit | app/core/pdfs.py:121-144 | an indented line never changes the element's number, and its only failure is a KeyError |
| LegacyParser.ContinueElement | app/core/pdfs.py:121-144 | an indented line keeps the open element and the task keys |
| LegacyParser.LineStep | app/core/pdfs.py:102-144 | one line of the loop never removes a task |
| LegacyParser.ParseTasksLoop | app/core/pdfs.py:88-149 | the loop over the line iterator, recursing on a `Location:` line and breaking, computes `parse_tasks` as specified |
| LegacyParser.ParseTasksKeepsTasks | app/core/pdfs.py:88-149 | tasks are never removed, and the task of the starting line is present afterwards |
| LegacyParser.TaskLinesKeepsTasks | app/core/pdfs.py:102-147 | the loop over a task's lines never removes a task |
| LegacyParser.LocationKeepsCursor | app/core/pdfs.py:117-120 | a `Location:` line ends the loop and the cursor handed back is the one from before it, whatever the nested call left open |
| LegacyParser.ElementLine | app/core/pdfs.py:103-116 | a numbered line records its element under its number with the line's fields and an unknown status, and makes it the open element |
| LegacyParser.MeasureValueLine | app/core/pdfs.py:125-127 | with a measure open, a single-word field becomes that measure's value, keeps its unit and closes it |
| LegacyParser.MeasureLine | app/core/pdfs.py:128-140 | a field naming a measure records it with the value and unit of the next field, and the measure stays open exactly when there was no unit |
| LegacyParser.TextLine | app/core/pdfs.py:141-144 | any other indented line extends the description, and the remarks and tools when present, each on a new line, touching no measure |
| LegacyParser.PageWithoutHeader | app/core/pdfs.py:80-84 | a page without a `#` header changes neither the tasks nor the cursor |
| LegacyParser.ParsePageN | app/core/pdfs.py:79-152 | the loop skipping to the header, then `parse_tasks` from the next line, as specified |
| LegacyParser.PageLines | app/core/pdfs.py:48-49 | every line kept from the page text has a non-blank stripped text |
| LegacyParser.GroupIntercepts | app/core/pdfs.py:583-591 | the sort and the grouping loop give the specified rows |
| LegacyParser.InterceptRowsShape | app/core/pdfs.py:583-591 | the rows hold every intercept once in (y, x) order, each row shares one y, and the rows' y strictly increase |
| Excel.ResolveExcelCell | app/utils/excel.py:21-30 | the loop computes the column (base 26 over letters) and the row (base 10 over digits) of the reference |
| Excel.ColumnName | app/utils/excel.py:25-27 | a column name is a non-empty run of upper-case letters |
| Excel.ColumnNameValue | app/utils/excel.py:25-27 | reading a column's letters gives its number and leaves the row at 0 |
| Excel.DigitsAfter | app/utils/excel.py:28-29 | digits read after the letters set the row to their value and leave the column alone |
| Excel.CellRefRoundTrip | app/utils/excel.py:21-30 | resolving the reference written from a column and a row gives them back |
| Excel.B4 | app/utils/excel.py:21-30 | "B4" resolves to column 2, row 4 |
| VersionSync.ReadVersion | scripts/version_sync.py:17-28 | the loop over the environment file reads the version of its first `APP_VERSION` line, or none |
| VersionSync.FirstVersionLineOnly | scripts/version_sync.py:20-28 | the version is the one read from the first `APP_VERSION` line, and nothing after that line is read |
| VersionSync.SplitVersionText | scripts/version_sync.py:55-57 | the written version text splits back on `.` into its parts |
| VersionSync.VersionTextRoundTrip | scripts/version_sync.py:21-28 | the version text written into the configuration reads back, after its `v`, as the version it was written from, for parts without dots or surrounding blanks |
| VersionSync.EachLine | scripts/version_sync.py:32-44 | a successful rewrite keeps the number of lines and replaces each line by its own rewrite |
| VersionSync.EachLineErr | scripts/version_sync.py:32-44 | the rewrite fails exactly when some line's rewrite fails |
| VersionSync.EachLinePrefixErr | scripts/version_sync.py:32-44 | a failing prefix makes the whole rewrite fail with the same error |
| VersionSync.RewriteLines | scripts/version_sync.py:32-57 | the in-place loop over the lines computes the specified rewrite |
| VersionSync.NsisLine | scripts/version_sync.py:33-44 | a line that defines a part becomes that part's `!define` line, a KeyError without a version; other lines are kept |
| VersionSync.NsisScriptOk | scripts/version_sync.py:30-44 | with a version the installer script is always rewritten, keeps its length and its other lines, and each defining line becomes its part's line |
| VersionSync.NsisScriptNoVersion | scripts/version_sync.py:30-44 | without a version the installer script fails exactly when some line defines a part |
| VersionSync.DigitRun | scripts/version_sync.py:55 | the run found is all digits and is followed by no digit |
| VersionSync.TokenLength | scripts/version_sync.py:55 | a version match is `v`, a digit and more, within the text |
| VersionSync.SubVersionAbsent | scripts/version_sync.py:55-57 | a value without a version token is kept as it is |
| VersionSync.SubVersionToken | scripts/version_sync.py:55-57 | a value that is a single token is replaced as a whole |
| VersionSync.ConfigLineKeeps | scripts/version_sync.py:51-57 | a configuration line without `=` is never changed |
| VersionSync.ConfigFileOk | scripts/version_sync.py:49-57 | with a version the configuration is always rewritten and keeps its length; every line without `=` is kept, and every line with one becomes its key, `=` and its value with the version replaced, on a line of its own |
| VersionSync.ConfigLineRewrites | scripts/version_sync.py:51-57 | a line whose stripped text is a key, `=` and a value, then nothing or further `=`-fields, becomes `key=` and the value with every version token replaced, on a line of its own; without a version it is a `KeyError` |
| VersionSync.ConfigLineSplits | scripts/version_sync.py:51-53 | every line with `=` reads, once stripped, as such a key and value: the key runs up to the first `=`, the value from there up to the next `=` or the end |
| VersionSync.KeyValueOf | scripts/version_sync.py:51-53 | a text with `=` splits at its first `=` and the next `=` after it into a key, a value and the rest |
| VersionSync.StripKeeps | scripts/version_sync.py:51 | `strip()` keeps every character that is not whitespace |
| LegacyParser.LocationLine | app/core/pdfs.py:117 | a line that starts with `Location:` is recognised as one |
| LegacyParser.SortedYs | app/core/pdfs.py:583 | sorting by (y, x) orders the intercepts by y |
| LegacyParser.RowsShareY | app/core/pdfs.py:584-591 | every intercept of a row shares the row's y |
| LegacyParser.RowsRiseY | app/core/pdfs.py:583-591 | the rows' y strictly increase |
| PreventiveRows.SetKeyword | app/model/pdfs.py:82-95 | one keyword argument of the parameters' constructor: exactly the names it does not declare raise `TypeError` |
| PreventiveRows.NewParamsFails | app/model/pdfs.py:82-95 | the constructor fails, with `TypeError`, exactly when one of its keywords is not declared |
| PreventiveRows.AsWrittenRejectsOverlap | app/core/preventive.py:974-986 | as written, the page set-up passes `vertical_overlap`, which the constructor does not declare, so every page raises `TypeError` |
| PreventiveRows.PageParamsFor | app/core/preventive.py:974-986 | the four declared keywords are accepted and the threshold is 0.55; the tolerance is 3 on page 1, 5 on other pages but 11, and on page 11 40 when some box underflows and 5 otherwise; the minimum sizes are 6 after page 1 and 0 on it |
| PreventiveRows.FindUnderflow | app/core/preventive.py:964-968 | the scan reports an underflow exactly when some element has a negative `x0` or `y0` |
| PreventiveRows.RowBounds | app/core/preventive.py:1005-1006 | the row's widened bottom is the least widened `y0` of its cells and its top the greatest widened `y1`, each reached by some cell |
| PreventiveRows.OverlapInUnit | app/core/preventive.py:1006-1040 | with upright boxes and a positive tolerance the vertical overlap is defined and lies between 0 and 1 |
| PreventiveRows.Place | app/core/preventive.py:995-1053 | a cell joins the last row when its overlap reaches the threshold, opens a new row otherwise or when there is none, and fails only by dividing by a zero row height |
| PreventiveRows.GroupByOverlap | app/core/preventive.py:995-1053 | there are rows exactly when there are cells, no row is empty, and the only failure is a division by zero |
| PreventiveRows.GroupErrSticks | app/core/preventive.py:995-1053 | once a prefix of the cells fails to group, the whole grouping fails the same way |
| PreventiveRows.GroupByOverlapOk | app/core/preventive.py:995-1053 | with upright boxes and a positive tolerance the grouping never fails |
| PreventiveRows.GroupedCells | app/core/preventive.py:995-1053 | the rows concatenate back to the cells: nothing is lost, duplicated or reordered |
| PreventiveRows.GroupJoinsAndSplits | app/core/preventive.py:1049-1053 | every later cell of a row reached the threshold against the row before it, and every row's first cell did not reach it against the row before |
| PreventiveRows.SortRows | app/core/preventive.py:1054-1055 | each row is ordered by `x0` and is a permutation of itself before |
| PreventiveRows.PageRowsPartition | app/core/preventive.py:993-1055 | the rows hold, between them, exactly the layout's cells with their multiplicities, each row ordered by `x0` |
| PreventiveRows.GroupRows | app/core/preventive.py:993-1055 | the sort by `(-y0, x0)`, the grouping loop and the row sorts compute the specified rows |
| PreventiveRows.PlaceCell | app/core/preventive.py:1000-1053 | the loop body for one cell computes the specified join or new row |
| PreventiveRows.SortEachRow | app/core/preventive.py:1054-1055 | the loop sorting every row computes the specified sorted rows |
| PreventiveRows.BottomBounds | app/core/preventive.py:1005 | a row's widened bottom is at most every cell's widened `y0` and equals one of them |
| PreventiveRows.TopBounds | app/core/preventive.py:1006 | a row's widened top is at least every cell's widened `y1` and equals one of them |
| PreventiveRows.PlaceFlatten | app/core/preventive.py:1000-1053 | a grouping step appends the cell to the rows read in order |
| PreventiveRows.JoinKeeps | app/core/preventive.py:1050-1051 | a cell that joins the last row keeps every row joined and split by the threshold |
| PreventiveRows.OpenKeeps | app/core/preventive.py:1050-1053 | a cell that opens a new row keeps every row joined and split by the threshold |
| PreventiveRows.PageParamsAsWritten | app/core/preventive.py:974-986 | as written, the page set-up's constructor call can only fail, and then with `TypeError` |
| Preventive.Stripped | app/core/preventive.py:258-259 | reading a cell's stripped text can only fail with `AttributeError` |
| Preventive.AnyCellFound | app/core/preventive.py:299 | the scan over a row holds only when some cell passes the test |
| Preventive.AnyCellNone | app/core/preventive.py:299 | the scan fails to hold exactly when every cell's test runs and does not hold |
| Preventive.LabelScanErr | app/core/preventive.py:299 | a label scan raises only what reading a cell's text raises |
| Preventive.LabelValueFound | app/core/preventive.py:308-315 | a value found is the stripped text of the right neighbour of a labelled cell |
| Preventive.LabelValueNone | app/core/preventive.py:308-315 | when no value is found, no cell with a right neighbour carries the label |
| Preventive.SignedFound | app/core/preventive.py:384-394 | a signature is found only when some labelled cell has a right neighbour with a child |
| Preventive.SignedNone | app/core/preventive.py:384-394 | a signature is missing only when the right neighbour of every labelled cell has no children |
| Preventive.SkipToFound | app/core/preventive.py:296-300 | the row reached is the first row from the start that is long enough and has a labelled cell |
| Preventive.SkipToBound | app/core/preventive.py:296-300 | the row reached lies between the start and the last row |
| Preventive.SkipToExhausted | app/core/preventive.py:296-305 | without a long enough labelled row the iterator runs out and `len(None)` raises `TypeError` |
| Preventive.TitleRows | app/core/preventive.py:251-292 | fewer than two rows raise `TypeError`; on success rows 1 to 4 are wide enough and the year, code, date and revision are the stripped texts of their cells |
| Preventive.Page1Forms | app/core/preventive.py:156-227 | with form fields the title comes from the text as above, the WTG from the "Dropdun" field, and each signature holds exactly when its field has a value |
| Preventive.Page1TextTitle | app/core/preventive.py:230-292 | without form fields too, fewer than two rows raise `TypeError` and a header found has the title of rows 1 to 4 |
| Preventive.Classify | app/core/preventive.py:860-902 | a row not starting with a rect is rejected, a failing "tech" scan passes its error on, and a first fill without three components raises ValueError; otherwise the row is always classified, and in both directions: a section row is exactly a lone cell nearest to green (checked before "tech"); a sub-task row exactly a non-section row with a "tech" cell or at most four cells nearest to blue; then a lone cell is a block, six or more cells a list row, and two to five cells another row |
| Preventive.StartSection | app/core/preventive.py:435-459 | a section row fails only with `AttributeError` or a mismatch, and closes the sub-task leaving the counters alone |
| Preventive.StartSectionSets | app/core/preventive.py:444-458 | the row opens the section its text names, prefixed by the open section while no sub-task is open, and stores it anew and empty, every other section unchanged |
| Preventive.StartSubtask | app/core/preventive.py:462-484 | a sub-task row needs an open section, raises `KeyError` only when that section is not stored, and changes only the open sub-task |
| Preventive.StartSubtaskSets | app/core/preventive.py:478-483 | the row opens the sub-task its text names and stores it anew and empty under the open section, whose name and other sub-tasks are unchanged |
| Preventive.PutElement | app/core/preventive.py:770-772 | storing an element fails, with `KeyError`, exactly when the open section or sub-task is not stored |
| Preventive.PutElementSets | app/core/preventive.py:770-772 | storing sets that one element and leaves every other element and every section key as they were |
| Preventive.FormColumns | app/core/preventive.py:682-750 | status, comment, MORS and measurement each come, stripped, from their form field when it exists (the first comment key before the second) and are kept otherwise; the other columns are untouched |
| Preventive.CellOr | app/core/preventive.py:792-817 | a cell past the end of the row leaves the column as it was, and reading one fails only with `AttributeError` |
| Preventive.TextColumns | app/core/preventive.py:790-817 | without form fields, cells 2 to 5, where present, give the status, comment, MORS and measurement, the other columns untouched |
| Preventive.TailColumns | app/core/preventive.py:825-844 | cell 6 gives the unit, cell 7 the minimum, and the last cell of a row of more than eight the maximum, the other columns untouched |
| Preventive.ListRowElement | app/core/preventive.py:769-844 | the element of a list row has its first cell as task code, its second as description, its unit, minimum and maximum from the tail, and its middle columns from the text or the form fields |
| Preventive.ListElement | app/core/preventive.py:753-849 | a list row raises `KeyError` only with a sub-task open but not stored; on success it stores the row's element and moves the line counter by one |
| Preventive.ListElementStores | app/core/preventive.py:769-847 | a list row stores the element it describes under its task code in the open sub-task, and only the line counter moves |
| Preventive.GridElement | app/core/preventive.py:600-640 | a grid row's element fails only with `AttributeError` |
| Preventive.BlockGrid | app/core/preventive.py:591-656 | the grid loop consumes rows forward, within the page, and leaves the state alone |
| Preventive.BlockText | app/core/preventive.py:574-656 | the block consumes at least its title and header rows; with no header row the iterator yields `None` and `len(None)` raises `TypeError` |
| Preventive.CommentElement | app/core/preventive.py:537-569 | a comment's element is kept exactly when its comment or MORS text is not empty |
| Preventive.Cap | app/core/preventive.py:494 | skipping a row past the end stays at the end |
| Preventive.BlockFields | app/core/preventive.py:487-571 | with form fields the block consumes rows forward and leaves the state alone; without qualifying comment and MORS fields it only skips one row |
| Preventive.KidsBlock | app/core/preventive.py:494-571 | the block read from the fields consumes rows forward; without kids it only skips one row |
| Preventive.KidsBlockComments | app/core/preventive.py:537-571 | with kids, the block is the comments loop's outcome, one row skipped per comment |
| Preventive.BlockElement | app/core/preventive.py:659-679 | a block consumes rows forward and leaves the state alone |
| Preventive.Dispatch | app/core/preventive.py:852-902 | a row is consumed, with any rows its block takes, and the block counter is kept and the line counter never goes back |
| Preventive.PageStart | app/core/preventive.py:913-941 | an empty page raises `TypeError`; a first row that is not a rect whose first child is a text box is a mismatch; a "td code" header row is skipped, any other starts a new block at line 1 |
| Preventive.PageSpec | app/core/preventive.py:958-1072 | page 1 fills only the header; any other page keeps the header and leaves the tasks present; built on the corrected page parameters, not the code as written (see the second row of ## Findings) |
| Preventive.PagesFromTasks | app/core/preventive.py:68-103 | the tasks exist after the pages exactly when they existed before or a page other than the first was matched; built on the corrected page parameters, not the code as written (see the second row of ## Findings) |
| Preventive.Document | app/core/preventive.py:68-153 | the rows produced all have the 23 columns of the sheet; built on the corrected page parameters, not the code as written (see the second row of ## Findings) |
| Preventive.DocumentNeedsTwoPages | app/core/preventive.py:68-153 | a document of one page or none raises `KeyError` when flattened; a longer one fails only when a page does, and then gives one row per matched element; built on the corrected page parameters, not the code as written (see the second row of ## Findings) |
| Preventive.PutElementConsistent | app/core/preventive.py:770-772 | storing an element keeps every stored section and sub-task stored, under its name |
| Preventive.StartSectionConsistent | app/core/preventive.py:435-459 | a section row leaves the open section stored and every section keyed by its name |
| Preventive.StartSubtaskConsistent | app/core/preventive.py:462-484 | under a consistent state a sub-task row never meets a missing section |
| Preventive.ListElementConsistent | app/core/preventive.py:753-849 | under a consistent state a list row never raises `KeyError` and keeps the state consistent |
| Preventive.BlockGridConsistent | app/core/preventive.py:591-656 | under a consistent state the grid loop never raises `KeyError` and keeps the tasks consistent |
| Preventive.CommentsFromConsistent | app/core/preventive.py:537-569 | under a consistent state the comments loop never raises `KeyError` and keeps the tasks consistent |
| Preventive.BlockElementConsistent | app/core/preventive.py:659-679 | under a consistent state a block never raises `KeyError` and keeps the tasks consistent |
| Preventive.DispatchConsistent | app/core/preventive.py:852-902 | a row of a later page never meets a missing section or sub-task, and leaves the state consistent |
| Preventive.RowsFromConsistent | app/core/preventive.py:944-951 | the row loop of a later page never raises `KeyError` and leaves the state consistent |
| Preventive.PageNConsistent | app/core/preventive.py:905-955 | a later page never raises `KeyError`: the guards on the open section and sub-task cover every access to the tasks |
| Preventive.PagesFromConsistent | app/core/preventive.py:68-103 | matching the pages never raises `KeyError`, and every stored section is keyed by its own name; built on the corrected page parameters, not the code as written (see the second row of ## Findings) |
| Preventive.DocumentConsistent | app/core/preventive.py:68-103 | past the first page the document never raises `KeyError`, and every section and sub-task in the matched tree is stored under its own name; built on the corrected page parameters, not the code as written (see the second row of ## Findings) |
| Preventive.ScanCells | app/core/preventive.py:299 | the loop over the cells computes the specified scan |
| Preventive.FindValue | app/core/preventive.py:308-315 | the loop finding a label's value computes the specified value |
| Preventive.FindSigned | app/core/preventive.py:384-394 | the signature loop computes the specified signature |
| Preventive.SkipRows | app/core/preventive.py:296-300 | the skipping loop reaches the specified row |
| Preventive.ReadDates | app/core/preventive.py:294-370 | the reads of the dates and hours compute the specified fields |
| Preventive.ReadDatesAt | app/core/preventive.py:304-370 | the reads from the "wtg" row and the next one compute the specified fields |
| Preventive.ReadSignatures | app/core/preventive.py:372-415 | the reads of both signatures compute the specified flags |
| Preventive.MatchPage1Text | app/core/preventive.py:230-419 | the first page without form fields computes the specified header |
| Preventive.MatchBlockGrid | app/core/preventive.py:591-656 | the grid loop computes the specified block |
| Preventive.MatchComments | app/core/preventive.py:537-569 | the comments loop computes the specified elements |
| Preventive.MatchBlock | app/core/preventive.py:659-679 | the block dispatch computes the specified block |
| Preventive.MatchBlockFields | app/core/preventive.py:487-571 | the block from form fields computes the specified block |
| Preventive.MatchBlockText | app/core/preventive.py:574-656 | the block from text computes the specified block |
| Preventive.MatchRow | app/core/preventive.py:852-902 | one row of a later page computes the specified step |
| Preventive.ClassifyRow | app/core/preventive.py:860-878 | the "tech" scan and the fill tests compute the specified row kind |
| Preventive.MatchPageN | app/core/preventive.py:905-955 | the head of the page and its row loop compute the specified page |
| Preventive.MatchPage | app/core/preventive.py:958-1072 | the underflow scan, the tolerances, the row grouping and the page dispatch compute the specified page; built on the corrected page parameters, not the code as written (see the second row of ## Findings) |
| Preventive.MatchPrevPdf | app/core/preventive.py:68-153 | every page in order, then the flattening, computes the specified rows; built on the corrected page parameters, not the code as written (see the second row of ## Findings) |
| Preventive.MatchPages | app/core/preventive.py:68-103 | the page loop, numbering pages from 1, computes the specified match; built on the corrected page parameters, not the code as written (see the second row of ## Findings) |

## Left out

- PDF reading is not modelled. pdfminer's `extract_pages`, `LAParams`, `PdfReader`, `PDFUtils.page_count` and the loading and decoding of form fields are foreign calls. Pages arrive as sequences of primitives, and form fields as a dictionary of `FormField` values (an optional `V`, optional `Kids`).
- Page numbering is taken from the page's position: the `pageid` of the `i`-th page is `i + 1`, as `match_prev_pdf` assigns it.
- The matchers are not chained to the cell pipeline. `_pdf_page` and `_match_mv_pdf_page` take the composer's output for a page as an input. Decomposer, intersection finder and composer are modelled and proved on their own.
- Spreadsheet output is reduced to row values. pandas `DataFrame` writes, index bookkeeping, `ExcelWriter`, `read_excel` and `append_to_excel` are I/O; the model produces the rows, in the order they would be appended.
- The matchers yield results page by page. Those intermediate yields, and the MV matcher's catch-all that logs an exception and yields it, are not modelled; the model returns the first error as the result.
- Logging, `print` and the rendering and highlighting code (matplotlib, pdf2image, PIL) are not modelled.
- DBSCAN clustering in the grid builder is an sklearn call, so clusters are an input of `MergeCluster` and `ComposeBBox`. `_extract_lines` is not part of this model.
- Assigning the deduplicated red crosses to cells is not modelled. It is the generic composer's `_assign_components_to_rects` applied to them, which is modelled on its own.
- The legacy object-driven parsers are not part of this model: `parse_preventive_pdf`, `_parse_preventive_pdf_page` and their duplicates in `app/core/pdfs.py` iterate pdfminer objects directly.
- File I/O of the version synchroniser is not modelled: reading the environment file, reading and writing the installer script and the configuration. They are line sequences in and out.
- Floating point is not modelled: coordinates and colours are reals.
- Every `math.dist(..) <= tol` test and nearest-colour choice compares squared distances instead. Because the square root is monotone, the outcome is the same.
- `BBox.point_in_bbox` is not shown in the source. It is taken as closed containment.
- Boxes are taken as normalised (`x0 <= x1`, `y0 <= y1`), as pdfminer builds them, and after the one-decimal rounding of the layout utilities.
- Strings are ASCII: `strip`, `lower`, `upper`, `isdigit` and `isspace` use ASCII classes, with no Unicode case mapping.
- Regular expressions are modelled by their effect only. `re.split(r'\s{2,}')` is a split on runs of two or more whitespace characters. The version `re.sub` is a left-to-right scan for `v<digits>(.<digits>){0,3}` tokens.
- Composer.AddKid: a descent through more nested rects than the store holds means the nesting has a cycle, which Python would recurse on until its limit. The model reports `RecursionError` once the store's size is exhausted.
- Composer.PDFComposer.Predict: when a `RecursionError` occurs, the model leaves the store as it was. The source leaves the children added before the error in place.
- Preventive matching state: the initial `task` and `subtask` of `None` are modelled as `""`. Both are falsy, and neither is formatted before a section is opened.
- The preventive result starts from an empty dictionary; its `Tasks` entry is created at app/core/preventive.py:913.
- MvMatcher.MvDocument: the MV matcher never creates `Tasks`. It reads it at app/core/mv.py:415 and iterates it at line 233. The model therefore assumes that the caller passes a result whose `Tasks` entry is empty and whose header fields are empty strings; the callers of `match_mv_pdf` are not part of this model. From a dictionary without `Tasks` the source raises `KeyError` at the first location row, or at the flattening when there is none, where the model returns a result.
- MvComposer.StepAt, RegroupFrom, RegroupCell, RegroupAll, RegroupStep, RegroupChildren, RegroupCells, RegroupOne and RegroupAllStep follow the corrected text branch of the first row of "## Findings". The code as written is modelled only by TextStepAsWritten and LineAsWritten, and the loss of a component it causes is stated by AsWrittenDropsCaption.
- Preventive.PageSpec, PagesFromTasks, Document, DocumentNeedsTwoPages, PagesFromConsistent, DocumentConsistent, MatchPage, MatchPrevPdf and MatchPages use the corrected page parameters of the second row of "## Findings". As written, every page raises `TypeError` (PreventiveRows.AsWrittenRejectsOverlap).
- Preventive.BlockGrid: the guard `i not in Elements` compares an integer with string keys, so it always holds. The model stores every grid element that has text under the key `str(i)`, replacing any element already there.
- Preventive.BlockFields: the check for an open section and sub-task inside `_page_n_block_task_element_form_fields` (lines 532-533) is not modelled. Its only caller, `_page_n_block_task_element`, has already made the same check, so it can never fail.

## Findings

| source | as written | input that shows it | evidently intended | confidence | as-written member | corrected member |
|---|---|---|---|---|---|---|
| app/core/mv.py:131-175 | in the text branch of `MVLTComposer.predict`, `end_idx = i` runs for every child the scan reaches, before the kind test; the child that stops the scan (a text that is not an integer) falls inside `children[start_idx:end_idx + 1]`, which the cell loses, yet it is never added to the line rect | a cell whose children are a caption text, a numbered value text, its yellow box rect and a second caption text: seven components go in and six come out | the line rect replaces only the run of children it took, so the second caption stays in the cell | not executed | MvComposer.AsWrittenDropsCaption | MvComposer.RunKeepsCaption |
| app/core/preventive.py:974-986 | `_pdf_page` passes `vertical_overlap=0.55` to `PDFLTParams`, whose constructor (app/model/pdfs.py:82-95) declares no such keyword; later, at line 1050, it reads `params.vertical_overlap` | any page, whatever its number: the constructor raises `TypeError` | the four declared tolerances are given to the constructor, and the 0.55 overlap threshold is kept beside them for the row grouping | not executed | PreventiveRows.AsWrittenRejectsOverlap | PreventiveRows.PageParamsFor |
