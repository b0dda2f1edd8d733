# 2D23D structural detection core, in Dafny

This project models the geometric core of 2D23D. 2D23D reads structural CAD drawings (DXF) and
produces a provisional 3-D building model (IFC). The model covers these parts of the pipeline:

- the geometry value types: points, lines, boxes, the confidence range and its bands, grid labels;
- grid detection: orientation split, spacing, confidence, labels, intersections, regularity;
- wall segment merging and wall intersection resolution;
- foundation rectangle grouping and the one-dimensional clustering helpers;
- polyline metrics: perimeter, shoelace area, bounding box, the right-angle test;
- the rule engines: wall classification, column placement, slab generation, column heights
  from upper floors or from a reference model, and the spatial index's per-element boxes.

Coordinates are Dafny `real` values, in millimetres as in the drawings. `sqrt` and `atan2` are
the two fields of `Numeric.Math`, a value passed to every operation that needs them.
`Numeric.ValidMath` states the only facts the proofs use about them:

- `sqrt` returns the non-negative root;
- `atan2` lies in [−π, π], takes its axis values, and `atan2(−y, −x)` has absolute value
  π − |atan2(y, x)| for a non-zero vector.

`np.median` and `np.mean` are defined concretely, and Python's `round` is round-half-to-even.
Lists that the code builds by appending become Dafny sequences; loops become `method`s whose
`ensures` tie the result to a specification function. In-place updates of columns and grid
lines are methods over an `array` of values. Python exceptions become `Failure` results.
Grid labels are sequences of `Models.CodePoint`, the integers 0 to 0x10FFFF that `chr` accepts,
surrogates included. A row axis long enough to push `chr` past 0x10FFFF therefore raises its
`ValueError` in the model too (`GridDetection.LabelCapacity` rows fit).

Each module has one file: `models.dfy`, `griddetector.dfy`, `walldetector.dfy`,
`wallintersections.dfy`, `foundationdetector.dfy`, `polylineextractor.dfy`,
`wallclassifier.dfy`, `columngenerator.dfy`, `slabgenerator.dfy`, `columnheightdetector.dfy`,
`columnheightfromreference.dfy` and `spatialindex.dfy`. The shared files are `numeric.dfy`
(`Math`, `Abs`, `Min`, `Max`, `Round`, `FMod`, means and arithmetic lemmas), `sorting.dfy`
(a stable insertion sort and the median) and `wrappers.dfy` (`Option`, `Result`).

## Model

| member | source | states |
|---|---|---|
| Numeric.Round | d23d/detection/column_height_detector.py:87 | Python's `round` to an integer: the result is within 0.5 of the input, and an exact half goes to the even neighbour |
| Numeric.FMod | d23d/detection/wall_detector.py:27-35 | Python's float `%` for a positive divisor: the remainder lies in [0, y) and x = r + ⌊x / y⌋·y |
| Numeric.SeqMin | d23d/detection/grid_detector.py:418-421 | Python's `min` of a non-empty list: a member of the list, no larger than any element |
| Numeric.SeqMax | d23d/detection/grid_detector.py:418-421 | Python's `max` of a non-empty list: a member of the list, no smaller than any element |
| Sorting.SortBySorted | d23d/detection/grid_detector.py:196-197 | the stable key sort returns a permutation of its input, ascending by key |
| Sorting.MedianBetween | d23d/detection/grid_detector.py:262 | `np.median` of a non-empty list lies between its minimum and maximum |
| Sorting.MedianSingleton | d23d/detection/grid_detector.py:258-259 | the median of one value is that value |
| Models.SqDist | d23d/core/models.py:38-40 | the squared distance is non-negative and zero for identical points |
| Models.DistanceTo | d23d/core/models.py:38-40 | `distance_to` is non-negative and its square is the squared coordinate difference |
| Models.DistanceSymmetric | d23d/core/models.py:38-40 | `distance_to` is symmetric |
| Models.DistanceZero | d23d/core/models.py:38-40 | a point is at distance 0 from itself |
| Models.DistanceLess | d23d/core/models.py:38-40 | comparing a distance with a non-negative threshold, strictly or not, is the same as comparing the squared distance with the squared threshold |
| Models.PointEq | d23d/core/models.py:45-48 | `__eq__` holds for identical points |
| Models.PointEqReflexiveSymmetric | d23d/core/models.py:45-48 | point equality within 1e-6 per coordinate is reflexive and symmetric |
| Models.PointEqNotTransitive | d23d/core/models.py:45-48 | point equality is not transitive: (0,0) = (6e-7,0) = (1.2e-6,0) but (0,0) ≠ (1.2e-6,0) |
| Models.Length | d23d/core/models.py:70-72 | `length` is non-negative and squares to the squared start–end distance |
| Models.LengthReversed | d23d/core/models.py:70-72 | swapping start and end keeps the length |
| Models.LongLines | d23d/detection/grid_detector.py:73 | every kept line is an input line at least the minimum length, and no more lines are kept than were given |
| Models.LongLinesAppend | d23d/detection/grid_detector.py:73 | the length filter distributes over concatenation, so the kept lines keep their input order and their repeats |
| Models.LongLinesComplete | d23d/detection/grid_detector.py:73 | every input line at least the minimum length is kept |
| Models.Angle | d23d/core/models.py:74-79 | `angle` lies in [−π, π] |
| Models.AngleReversed | d23d/core/models.py:74-79 | reversing a non-degenerate line turns the absolute angle into π minus it |
| Models.IsHorizontal | d23d/core/models.py:80-84 | a horizontal line needs a positive tolerance, and every line is horizontal for a tolerance above π/2 |
| Models.IsVertical | d23d/core/models.py:86-90 | a vertical line needs a positive tolerance, and every line is vertical for a tolerance above π/2 |
| Models.OrientationReversed | d23d/core/models.py:80-90 | `is_horizontal` and `is_vertical` do not depend on the direction of the line |
| Models.AxisAlignedOrientation | d23d/core/models.py:80-90 | an exactly horizontal line is horizontal and, for a tolerance up to π/2, not vertical; likewise for an exactly vertical line |
| Models.ContainsPoint | d23d/core/models.py:103-106 | a box contains a point only when min ≤ max on both axes |
| Models.ContainsCorners | d23d/core/models.py:103-106 | `contains_point` is inclusive on all four edges: a box contains some point iff min ≤ max on both axes, and then it contains its four corners |
| Models.Area | d23d/core/models.py:108-110 | the area of a box with min ≤ max is non-negative |
| Models.AreaOfWellFormedBox | d23d/core/models.py:108-110 | the area of a box with min ≤ max is non-negative, and zero iff the box is flat on an axis |
| Models.ValidateConfidence | d23d/core/models.py:121-127 | a confidence is accepted, unchanged, iff it lies in [0, 1]; otherwise the validation error is raised |
| Models.LevelOf | d23d/core/models.py:129-136 | the level is HIGH iff ≥ 0.8, MEDIUM iff in [0.5, 0.8), LOW iff < 0.5 |
| Models.LevelMonotone | d23d/core/models.py:129-136 | the level is monotone in the confidence: a higher confidence never gets a lower band |
| Models.IntersectionLabelInjective | d23d/core/models.py:160-162 | for letter-only horizontal labels and non-empty digit-only vertical labels, the combined label determines both parts |
| Models.GetIntersection | d23d/core/models.py:181-186 | `get_intersection` returns the first intersection carrying both labels, and None iff there is none |
| GridDetection.HorizontalOf | d23d/detection/grid_detector.py:157-167 | the horizontal group holds only input lines that are horizontal, no more than were given |
| GridDetection.VerticalOf | d23d/detection/grid_detector.py:157-167 | the vertical group holds only input lines that are vertical and not horizontal, no more than were given |
| GridDetection.ClusterAppend | d23d/detection/grid_detector.py:157-167 | both groupings distribute over concatenation, so each keeps its lines in input order, repeats included |
| GridDetection.ClusterPartition | d23d/detection/grid_detector.py:157-167 | every horizontal line goes to the horizontal group; every vertical line that is not horizontal goes to the vertical group; the groups are disjoint; diagonal lines are dropped |
| GridDetection.ClusterByOrientation | d23d/detection/grid_detector.py:145-167 | the loop builds exactly the two groups above |
| GridDetection.PositionPairs | d23d/detection/grid_detector.py:186-194 | each line is paired with its midpoint coordinate, x for vertical and y for horizontal lines, in input order |
| GridDetection.CollectPositions | d23d/detection/grid_detector.py:186-194 | the loop builds exactly those pairs |
| GridDetection.Spacings | d23d/detection/grid_detector.py:200-203 | there is one gap per consecutive pair of positions, and none for fewer than two |
| GridDetection.ConsecutiveSpacings | d23d/detection/grid_detector.py:199-203 | the loop builds exactly those gaps |
| GridDetection.SpacingsNonNegative | d23d/detection/grid_detector.py:200-210 | every gap and the dominant spacing are non-negative |
| GridDetection.DominantSpacing | d23d/detection/grid_detector.py:245-262 | the dominant spacing is 0 without gaps and otherwise lies between the smallest and the largest gap |
| GridDetection.SortedPositionsFaithful | d23d/detection/grid_detector.py:196-197 | the sorted positions are a permutation of the pairs, ascending by position, each carrying its own line's position |
| GridDetection.GridLinesSpec | d23d/detection/grid_detector.py:169-243 | `_detect_grid_lines` returns either nothing or one grid line per input line |
| GridDetection.GridLinesOutcome | d23d/detection/grid_detector.py:182-210 | fewer than two lines give []; the division fails iff there are two or more lines and the dominant spacing is zero; otherwise every line is scored |
| GridDetection.ScoreAll | d23d/detection/grid_detector.py:213-243 | scoring produces one grid line per sorted position |
| GridDetection.ScoreAllOrdered | d23d/detection/grid_detector.py:234-241 | each scored grid line keeps its line and orientation with an empty label; `spacing_to_next` is the gap to the next line's position, and None for the last |
| GridDetection.ScoreAllConfidence | d23d/detection/grid_detector.py:214-232 | every scored confidence is in [0.5, 1] and every spacing is non-negative |
| GridDetection.ScoreLines | d23d/detection/grid_detector.py:213-243 | the scoring loop builds exactly the scored lines |
| GridDetection.DetectGridLines | d23d/detection/grid_detector.py:169-243 | the method computes `_detect_grid_lines` |
| GridDetection.GridLinesOrdered | d23d/detection/grid_detector.py:169-243 | with two or more lines the result is the input sorted ascending by position, with the stated spacings and empty labels |
| GridDetection.GridLinesConfidence | d23d/detection/grid_detector.py:214-232 | every grid line returned has confidence in [0.5, 1] and a non-negative spacing |
| GridDetection.FirstCodeInRange | d23d/detection/grid_detector.py:287-289 | the first character code `ord('A') + i // 26 − 1` of a two-character row label is a code point (below 0x110000) iff the index is below the label capacity |
| GridDetection.HorizontalLabel | d23d/detection/grid_detector.py:283-290 | a row label exists iff the index is below the label capacity (past it `chr` raises); it has one character below 26 and two from then on |
| GridDetection.NatToString | d23d/detection/grid_detector.py:279-280 | `str(i + 1)` is a non-empty string of decimal digits |
| GridDetection.NatToStringRoundTrip | d23d/detection/grid_detector.py:279-280 | reading the decimal label back gives the number |
| GridDetection.HorizontalLabelRoundTrip | d23d/detection/grid_detector.py:283-290 | the index can be read back from every row label, so row labels are one-to-one |
| GridDetection.LabelFor | d23d/detection/grid_detector.py:277-290 | every column index has a label, and a row index has one iff it is below the label capacity |
| GridDetection.LabelsDistinct | d23d/detection/grid_detector.py:277-290 | different indices get different labels; row labels are letters only iff the index is below 702; column labels are non-empty digit strings |
| GridDetection.Labelled | d23d/detection/grid_detector.py:277-292 | labelling fails with `chr`'s ValueError iff a row axis has more lines than the label capacity; otherwise it keeps length and order and changes only the label, to that of the line's index |
| GridDetection.LabelGridLines | d23d/detection/grid_detector.py:264-292 | the in-place loop succeeds iff the labelling does, and then leaves the array equal to the labelled lines; on `chr`'s ValueError the lines before the label capacity are labelled and the rest untouched |
| GridDetection.Row | d23d/detection/grid_detector.py:309-324 | a horizontal line meets every vertical line once, in vertical order |
| GridDetection.IntersectionsCount | d23d/detection/grid_detector.py:309-324 | there are exactly \|H\|·\|V\| intersections |
| GridDetection.IntersectionAtIndex | d23d/detection/grid_detector.py:309-324 | index i·\|V\| + j holds the crossing of horizontal line i and vertical line j |
| GridDetection.IntersectionMember | d23d/detection/grid_detector.py:309-324 | every intersection is the crossing of some horizontal and some vertical line |
| GridDetection.IntersectionConfidence | d23d/detection/grid_detector.py:315-323 | a crossing's confidence is valid and no larger than either line's, and its label is the horizontal label followed by the vertical one |
| GridDetection.FindIntersections | d23d/detection/grid_detector.py:294-327 | the nested loops build exactly the h-major cross product |
| GridDetection.TruthySpacings | d23d/detection/grid_detector.py:343-344 | the filtered spacings are non-zero values that some line carries as its spacing, no more than there are lines |
| GridDetection.TruthySpacingsComplete | d23d/detection/grid_detector.py:343-344 | every non-zero spacing some line carries is kept |
| GridDetection.TruthySpacingsAppend | d23d/detection/grid_detector.py:343-344 | the filter distributes over concatenation, so the kept spacings stay in line order |
| GridDetection.IsSpacingRegular | d23d/detection/grid_detector.py:357-369 | the early-return loop computes the regularity test |
| GridDetection.EqualSpacingsRegular | d23d/detection/grid_detector.py:357-369 | equal positive spacings are regular for any non-negative tolerance |
| GridDetection.CheckRegularity | d23d/detection/grid_detector.py:329-355 | with non-negative spacings on both axes `_check_regularity` never divides by zero |
| GridDetection.CheckRegularitySucceeds | d23d/detection/grid_detector.py:342-355 | with non-negative spacings the check never divides by zero, and the grid is regular iff each axis has no spacings or passes the test |
| GridDetection.TruthyPositive | d23d/detection/grid_detector.py:343-347 | the mean of the filtered spacings of lines whose spacings are non-negative is positive |
| GridDetection.GridConfidence | d23d/detection/grid_detector.py:390-408 | the overall confidence is at most 1 and the bonuses never take it below the capped mean of the two axes' mean line confidences |
| GridDetection.GridConfidenceBounds | d23d/detection/grid_detector.py:390-408 | the overall confidence is at most 1, regularity never lowers it, and it is at least 0.5 when all line confidences are |
| GridDetection.MeanConfidenceAtLeastHalf | d23d/detection/grid_detector.py:391-393 | the mean of confidences that are all at least 0.5 is at least 0.5 |
| GridDetection.GridBBox | d23d/detection/grid_detector.py:410-422 | the grid box exists iff both axes have lines; otherwise `min` of an empty list raises |
| GridDetection.IntersectionsInsideBox | d23d/detection/grid_detector.py:410-422 | every intersection lies inside the grid box |
| GridDetection.Detect | d23d/detection/grid_detector.py:60-143 | the method computes `detect`: `None` at the early exits, a failure for a zero dominant spacing or `chr`'s error on an over-long row axis, a grid otherwise |
| GridDetection.Assemble | d23d/detection/grid_detector.py:107-143 | the method, labelling the lines in place, computes steps 4 to 7 of `detect`, stopping with the labelling error when one is raised |
| GridDetection.DetectNoneCases | d23d/detection/grid_detector.py:72-105 | `detect` returns None in exactly its three early exits: too few long lines, too few lines on an axis, and an axis with no grid lines; it fails only when a dominant spacing is zero or the row axis has more lines than the label capacity |
| GridDetection.DetectFromAxesCases | d23d/detection/grid_detector.py:98-143 | from the two orientation clusters on, `detect` fails exactly when a dominant spacing is zero or, with `chr`'s error, when there are more rows than the label capacity; it returns None exactly when an axis has fewer than two lines |
| GridDetection.AssembleSucceeds | d23d/detection/grid_detector.py:107-143 | grid lines with non-negative spacings assemble into a grid iff the rows fit the label capacity, and otherwise fail with `chr`'s error |
| GridDetection.AssembledShape | d23d/detection/grid_detector.py:107-143 | the assembled grid keeps both line lists, has \|H\|·\|V\| intersections, labels A, B, … and 1, 2, …, has confidence in [0.5, 1], and its box holds every intersection |
| GridDetection.AssembleGridParts | d23d/detection/grid_detector.py:107-143 | an assembled grid holds the labelled line lists, their crossings, their bounding box and the grid confidence |
| GridDetection.DetectedGridShape | d23d/detection/grid_detector.py:60-143 | a detected grid has at least two lines per axis and the properties above |
| WallDetection.PointsClose | d23d/detection/wall_detector.py:15-17 | two points can be close only for a positive tolerance |
| WallDetection.PointsCloseFacts | d23d/detection/wall_detector.py:15-17 | `_points_close` is symmetric; for a non-negative tolerance it is a strict comparison of the squared distance; a point is close to itself iff the tolerance is positive |
| WallDetection.AnglesClose | d23d/detection/wall_detector.py:20-35 | `_angles_close` as written: close angles need a positive tolerance, and every pair is close for a tolerance above π/2, since the folded gap is at most a quarter turn |
| WallDetection.AnglesCloseFacts | d23d/detection/wall_detector.py:20-35 | `_angles_close` as written is symmetric, ignores the sign of an angle, and treats 0 vs π and π/2 vs −π/2 as close |
| WallDetection.MirroredAnglesClose | d23d/detection/wall_detector.py:26-28 | as written, mirror-image directions 0.2 and −0.2 count as close, though the undirected lines differ by 0.4 rad |
| WallDetection.ReversedDiagonalNotClose | d23d/detection/wall_detector.py:26-35 | as written, a line at 0.1 rad and the same line reversed are not close |
| WallDetection.AnglesCloseUndirected | d23d/detection/wall_detector.py:20-35 | the corrected test: close angles need a positive tolerance, and every pair is close for a tolerance above π/2 |
| WallDetection.AnglesCloseUndirectedFacts | d23d/detection/wall_detector.py:20-35 | the corrected test is symmetric, reflexive for a positive tolerance, and invariant under turning a direction by π |
| WallDetection.ReversedAnglesCloseUndirected | d23d/detection/wall_detector.py:20-35 | under the corrected test every line is close to its own reverse |
| WallDetection.AngleSign | d23d/core/models.py:74-79 | the line angle is positive for upward lines, negative for downward ones, and 0 or π for level ones |
| WallDetection.PointsCollinear | d23d/detection/wall_detector.py:38-56 | with a non-positive tolerance only the degenerate case (p1 and p3 within 1e-6) counts as collinear |
| WallDetection.PointsCollinearSquared | d23d/detection/wall_detector.py:38-56 | when p1 and p3 are at least 1e-6 apart, `_points_collinear` holds iff the squared cross product is below tol² times the squared length, so the perpendicular distance of p2 is below the tolerance |
| WallDetection.EndpointsCollinear | d23d/detection/wall_detector.py:38-56 | either endpoint of the reference segment is collinear with it |
| WallDetection.CanMergeWalls | d23d/detection/wall_detector.py:59-109 | with the as-written angle test this is `_can_merge_walls`, with the direction-free one the corrected test; either way the connection type is non-empty iff the walls can merge, and it is then one of the four types |
| WallDetection.CanMergeFirstJoin | d23d/detection/wall_detector.py:74-109 | under either angle test, two walls merge iff thickness and height match within 1, the angles pass that test, and some endpoint case joins; the type returned is the first case, in the fixed order, whose proximity and collinearity both hold |
| WallDetection.ReversedDiagonalWallsUnmerged | d23d/detection/wall_detector.py:78-109 | as written, a wall at angle 0.1 never merges with one at 0.1 − π, wherever its ends lie; under the corrected test they merge iff their sections match and some endpoint case joins |
| WallDetection.AnglesApartByHalfTurn | d23d/detection/wall_detector.py:20-35 | the angles 0.1 and 0.1 − π fail the as-written test at the default tolerance and pass the corrected one |
| WallDetection.MergeTwoWalls | d23d/detection/wall_detector.py:112-165 | merging succeeds iff the type is one of the four; the result takes thickness, height and layers from w1, has the average confidence, sums the segment counts and keeps w1's other metadata |
| WallDetection.MergedSpansFarEnds | d23d/detection/wall_detector.py:124-152 | the merged centreline runs between the two free endpoints of the joined pair, and its confidence lies between the parents' |
| WallDetection.Decide | d23d/detection/wall_detector.py:208-216 | the decision `merge_wall_segments` uses is `_can_merge_walls` as written, and it returns a connection type that `_merge_two_walls` accepts whenever it says the walls merge |
| WallDetection.DecideUndirected | d23d/detection/wall_detector.py:208-216 | the corrected decision is `_can_merge_walls` with the direction-free angle test, with the same guarantee on the connection type |
| WallDetection.Partner | d23d/detection/wall_detector.py:204-222 | the partner found for wall i is an index after i, not yet used, with which i merges |
| WallDetection.PartnerFirst | d23d/detection/wall_detector.py:204-222 | the partner is the first such index; with no partner, no later unused index merges with i |
| WallDetection.PassFacts | d23d/detection/wall_detector.py:192-235 | one pass outputs n − merged walls, keeps the total segment count, and with no merge returns the list unchanged |
| WallDetection.FindPartner | d23d/detection/wall_detector.py:204-222 | the inner loop with `break` finds exactly the first partner |
| WallDetection.MergePass | d23d/detection/wall_detector.py:192-229 | the pass loop with its used-index set computes exactly one merge pass and its merge count |
| WallDetection.MergeLoopFacts | d23d/detection/wall_detector.py:189-239 | repeated passes keep the total segment count and never lengthen the list; with at least n passes allowed the result admits no further merge |
| WallDetection.MergeWallSegments | d23d/detection/wall_detector.py:168-239 | the method, with `_can_merge_walls` as written, runs passes until one merges nothing or `max_iterations` passes have run, on a copy of the list |
| WallDetection.MergeRounds | d23d/detection/wall_detector.py:189-239 | the `while` loop computes exactly those passes |
| WallDetection.MergeLoopEmpty | d23d/detection/wall_detector.py:184-185 | an empty wall list merges to an empty list |
| WallDetection.ReversedDiagonalPairKept | d23d/detection/wall_detector.py:168-239 | `merge_wall_segments` as written keeps both walls of a reversed diagonal pair; with the corrected test and at least one pass they become one wall whenever the corrected test accepts them |
| WallDetection.PairKept | d23d/detection/wall_detector.py:192-235 | two walls the decision refuses are both kept, however many passes are allowed |
| WallDetection.PairMerged | d23d/detection/wall_detector.py:192-235 | two walls the decision accepts become one wall after at least one pass |
| WallDetection.LineWallConfidenceBounds | d23d/detection/wall_detector.py:293-298 | a line wall's confidence stays valid, is at least the threshold, and exceeds it iff the line is longer than 1000 and the threshold is below 1 |
| WallDetection.WallsFromLines | d23d/detection/wall_detector.py:282-307 | there is one wall per line passing the length filter |
| WallDetection.WallsFromLinesFacts | d23d/detection/wall_detector.py:282-307 | each wall's centreline is an input line of at least the minimum length, its confidence is valid and at least the threshold, its source layer is its line's layer, and every wall counts as one segment |
| WallDetection.AllSingleSegments | d23d/detection/wall_detector.py:163 | walls without metadata count one segment each |
| WallIntersections.IntersectionType | d23d/detection/wall_intersections.py:26-37 | each label matches exactly one wall count: two walls give an L-corner, three a T-junction, four or more an X-crossing, fewer than two an endpoint |
| WallIntersections.ClampedParameter | d23d/detection/wall_intersections.py:56 | for a segment that is not degenerate, the projection parameter is clamped into [0, 1] |
| WallIntersections.PointToLineDistance | d23d/detection/wall_intersections.py:40-63 | the distance is non-negative, and a segment shorter than the 1e-10 squared-length threshold measures to its start |
| WallIntersections.PointToLineDistanceMinimal | d23d/detection/wall_intersections.py:55-63 | for a segment that is not degenerate, the result is no larger than the distance to any point of the segment, its two ends included |
| WallIntersections.LinesIntersect | d23d/detection/wall_intersections.py:83-87 | a denominator below 1e-10 in absolute value (parallel lines) gives no intersection |
| WallIntersections.CrossingOnBoth | d23d/detection/wall_intersections.py:89-90 | for segments that are not parallel, the point at parameter t on the first line is the point at parameter u on the second |
| WallIntersections.LinesIntersectOnBoth | d23d/detection/wall_intersections.py:89-103 | a reported point lies on both lines, with t and u each within the widened range [-tp, 1 + tp] |
| WallIntersections.LinesIntersectFinds | d23d/detection/wall_intersections.py:66-105 | conversely, segments that are not parallel and meet inside both are reported at the meeting point, for any non-negative tolerance |
| WallIntersections.ParamToleranceNonNeg | d23d/detection/wall_intersections.py:94-97 | the tolerance in parameter units is non-negative when the tolerance in mm is |
| WallIntersections.EndpointCandidates | d23d/detection/wall_intersections.py:130-133 | there are two candidates per wall, at its start and end, in wall order |
| WallIntersections.CollectEndpoints | d23d/detection/wall_intersections.py:130-133 | the endpoint loop builds exactly that list of candidates |
| WallIntersections.IsNearCandidate | d23d/detection/wall_intersections.py:144-149 | the early-exit scan answers true iff some candidate lies strictly within the endpoint tolerance of the point |
| WallIntersections.CheckPair | d23d/detection/wall_intersections.py:138-153 | one pair of walls appends the crossing twice (once per wall) iff the walls cross and no candidate is already near that point |
| WallIntersections.ScanRow | d23d/detection/wall_intersections.py:137-153 | the inner loop over the walls after i equals the row specification |
| WallIntersections.ScanPairs | d23d/detection/wall_intersections.py:136-153 | the double loop over pairs i < j equals the pair specification |
| WallIntersections.CandidatesFacts | d23d/detection/wall_intersections.py:128-153 | the candidate list starts with every endpoint; after those come only pairs of crossing entries at the same point for walls i < j, each far from all earlier candidates; every wall index is in range |
| WallIntersections.NearbyFacts | d23d/detection/wall_intersections.py:167-171 | the neighbours of a seed are exactly the later-scanned, unprocessed candidates other than the seed that lie strictly within tolerance of it, in increasing index order |
| WallIntersections.Members | d23d/detection/wall_intersections.py:164-171 | a group is non-empty, starts with its seed and names only real candidates |
| WallIntersections.Groups | d23d/detection/wall_intersections.py:159-174 | every group formed is non-empty and names only real candidates |
| WallIntersections.WallIndices | d23d/detection/wall_intersections.py:165-183 | the reported wall indices are exactly the walls of the group's candidates, strictly increasing and without repeats |
| WallIntersections.CollectNearby | d23d/detection/wall_intersections.py:164-171 | the neighbour loop builds the group and the set of its walls |
| WallIntersections.GroupCandidates | d23d/detection/wall_intersections.py:156-184 | the grouping loop reports the groups of the specification function, those with more than one wall, at the mean of their points |
| WallIntersections.GroupsDisjoint | d23d/detection/wall_intersections.py:157-174 | no group meets what was already processed and no two groups share a candidate |
| WallIntersections.GroupsCover | d23d/detection/wall_intersections.py:159-174 | every candidate not yet processed ends up in some group |
| WallIntersections.GroupsPartition | d23d/detection/wall_intersections.py:156-174 | the groups partition the candidates, and every member lies strictly within tolerance of its group's seed (the grouping is not transitive) |
| WallIntersections.ReportedFacts | d23d/detection/wall_intersections.py:177-184 | each reported junction lists at least two distinct walls in increasing order, all in range |
| WallIntersections.DetectSpec | d23d/detection/wall_intersections.py:122-123 | fewer than two walls give no junctions |
| WallIntersections.DetectWallIntersections | d23d/detection/wall_intersections.py:108-197 | the detector returns the junctions of the specification function |
| WallIntersections.DetectFacts | d23d/detection/wall_intersections.py:108-197 | no reported junction is of the endpoint type; each lists two or more distinct walls, in increasing order and in range |
| WallIntersections.ExtendDistance | d23d/detection/wall_intersections.py:256-280 | pushing an endpoint by ext along the unit vector away from the opposite end moves it exactly ext further from that end |
| WallIntersections.Other | d23d/detection/wall_intersections.py:249-250 | at a two-wall junction, the other index is a member of the junction and differs from the wall itself when the two indices differ |
| WallIntersections.AdjustSpec | d23d/detection/wall_intersections.py:216-217 | there is one wall out per wall in, and no junctions leave the list unchanged |
| WallIntersections.AdjustOne | d23d/detection/wall_intersections.py:225-280 | the loop over junctions for one wall computes that wall's adjustment |
| WallIntersections.AdjustWallsAtIntersections | d23d/detection/wall_intersections.py:200-309 | the adjustment returns the walls of the specification function |
| WallIntersections.AdjustedIff | d23d/detection/wall_intersections.py:229-244 | a wall counts as adjusted iff one of its endpoints lies strictly within the snap tolerance of a junction that lists it |
| WallIntersections.AdjustWallFacts | d23d/detection/wall_intersections.py:282-305 | an untouched wall is kept as it is; a touched wall keeps its thickness, height, confidence and layers, gets its metadata plus the adjusted flag, and leaves the exterior and structural flags at their defaults |
| WallIntersections.SnapWithoutExtension | d23d/detection/wall_intersections.py:234-244 | without extension, each endpoint ends at the last junction in reach that lists the wall, or stays where it is |
| WallIntersections.StepExtendsStart | d23d/detection/wall_intersections.py:247-267 | at a two-wall corner, a snapped start ends half the other wall's thickness further from the original end than the junction point |
| WallIntersections.StepExtendsEnd | d23d/detection/wall_intersections.py:247-280 | at a two-wall corner, a snapped end ends half the other wall's thickness further from the original start than the junction point |
| FoundationDetection.InLengthRange | d23d/detection/foundation_detector.py:71-75 | every kept line is an input line whose length lies in [min, max], and no more lines are kept than were given |
| FoundationDetection.InLengthRangeComplete | d23d/detection/foundation_detector.py:71-75 | conversely, every input line with length in [min, max] is kept |
| FoundationDetection.FilterByLength | d23d/detection/foundation_detector.py:71-75 | the filtering loop keeps exactly the lines of the length specification |
| FoundationDetection.HorizontalLines | d23d/detection/foundation_detector.py:122-130 | the horizontal list holds only input lines whose x extent exceeds their y extent |
| FoundationDetection.VerticalLines | d23d/detection/foundation_detector.py:122-130 | the vertical list holds only input lines whose x extent does not exceed their y extent |
| FoundationDetection.SplitPartition | d23d/detection/foundation_detector.py:122-130 | the two lists together are a permutation of the input |
| FoundationDetection.SplitAppend | d23d/detection/foundation_detector.py:122-130 | the split distributes over concatenation, so input order is kept within each list |
| FoundationDetection.SplitByOrientation | d23d/detection/foundation_detector.py:122-130 | the loop builds the two lists of the specification function |
| FoundationDetection.OppositeSideSymmetric | d23d/detection/foundation_detector.py:192-194 | the opposite-side test (same x extent within 10 mm, 300 mm apart within 10 mm) is symmetric |
| FoundationDetection.Mark | d23d/detection/foundation_detector.py:240-244 | marking a rectangle adds its two horizontal and two vertical indices to the used indices, and keeps the used set shared or separate |
| FoundationDetection.FindOpposite | d23d/detection/foundation_detector.py:182-196 | the partner found is the first unused horizontal line, other than the line itself, on the opposite side; there is none iff no such line exists |
| FoundationDetection.ConnectorsFacts | d23d/detection/foundation_detector.py:204-222 | the connectors are exactly the unused vertical lines joining the two horizontals at either end, in increasing index order |
| FoundationDetection.FindOppositeLine | d23d/detection/foundation_detector.py:182-196 | the scan with break returns that first match |
| FoundationDetection.FindConnectorLines | d23d/detection/foundation_detector.py:204-222 | the scan stops at the second connector, so it returns the first two connectors (or all of them when there are fewer) |
| FoundationDetection.StepAt | d23d/detection/foundation_detector.py:172-224 | a rectangle found for horizontal line i has i as its first side and a real second side |
| FoundationDetection.StepAtFacts | d23d/detection/foundation_detector.py:172-224 | a rectangle found has an opposite pair of horizontals and two distinct connectors, none of them used yet |
| FoundationDetection.Matches | d23d/detection/foundation_detector.py:172-244 | every rectangle of the scan names real horizontal lines |
| FoundationDetection.MatchesFacts | d23d/detection/foundation_detector.py:172-244 | every rectangle is valid and built from unused lines, and no two rectangles share a line |
| FoundationDetection.MatchesCount | d23d/detection/foundation_detector.py:240-244 | each rectangle consumes two lines of each orientation, so twice the count is bounded by the unused lines of either orientation |
| FoundationDetection.Build | d23d/detection/foundation_detector.py:224-238 | there is one foundation per rectangle |
| FoundationDetection.FoundationFacts | d23d/detection/foundation_detector.py:224-238 | each foundation sits at the centre of a valid rectangle of fresh lines, is 300 by 300, has confidence 0.90, type BASESLAB and the first line's layer |
| FoundationDetection.FoundationsDisjoint | d23d/detection/foundation_detector.py:170-244 | no line is matched twice, and there are at most half as many foundations as lines of either orientation |
| FoundationDetection.GroupRectangles | d23d/detection/foundation_detector.py:168-248 | the rectangle loop returns the foundations the specification function builds from its rectangles |
| FoundationDetection.FormRectangle | d23d/detection/foundation_detector.py:172-222 | one turn of the loop at line `i` forms the rectangle `StepAt` names: none for a used line, a missing opposite side or fewer than two connectors |
| FoundationDetection.GroupAsWritten | d23d/detection/foundation_detector.py:95-248 | the grouping as written, with one used set for both orientations, gives at most half as many foundations as lines of either orientation |
| FoundationDetection.GroupCorrected | d23d/detection/foundation_detector.py:95-248 | the corrected grouping, with a used set per orientation, gives at most half as many foundations as lines of either orientation |
| FoundationDetection.GroupLinesIntoFoundations | d23d/detection/foundation_detector.py:95-248 | the method returns the foundations of the as-written grouping, with its one shared used set |
| FoundationDetection.DetectFoundations | d23d/detection/foundation_detector.py:66-92 | detection filters by length, then groups as written with one shared used set, returning nothing when no line is in range |
| FoundationDetection.DetectedRectangleLengths | d23d/detection/foundation_detector.py:66-92 | every side of every rectangle the as-written detection finds is an input line that passed the length filter |
| FoundationDetection.AsWrittenMatches | d23d/detection/foundation_detector.py:170-244 | with one shared used set, the two-cap example yields only its first rectangle |
| FoundationDetection.CorrectedMatches | d23d/detection/foundation_detector.py:170-244 | with separate used sets, the same example yields both rectangles |
| FoundationDetection.SharedSetMissesRectangle | d23d/detection/foundation_detector.py:170-244 | on the example, the as-written grouping gives one foundation and the corrected one gives both caps |
| FoundationDetection.GapClusters | d23d/detection/foundation_detector.py:280-292 | the runs are non-empty, at most one per element, and the last run ends with the last element |
| FoundationDetection.GapClustersFlatten | d23d/detection/foundation_detector.py:280-292 | the runs concatenated give back the sorted input |
| FoundationDetection.GapClustersSplit | d23d/detection/foundation_detector.py:280-292 | within a run consecutive keys differ by at most the gap, and between runs by more |
| FoundationDetection.GapClustersOrdered | d23d/detection/foundation_detector.py:311-325 | for strictly increasing keys, every key of a run is below every key of a later run |
| FoundationDetection.SortBySeconds | d23d/detection/foundation_detector.py:266-277 | sorting (position, line) pairs by position and dropping the positions is sorting the lines by their positions |
| FoundationDetection.ClusterLinesSorted | d23d/detection/foundation_detector.py:251-294 | there are no clusters iff there are no lines; the clusters are non-empty and together are the lines sorted by mid position, a permutation of the input |
| FoundationDetection.ClusterLinesGaps | d23d/detection/foundation_detector.py:283-289 | neighbours in a cluster are at most the gap apart and neighbouring clusters more than the gap |
| FoundationDetection.RunsByPosition | d23d/detection/foundation_detector.py:279-292 | the gap loop over sorted positions builds the runs of the specification function |
| FoundationDetection.ClusterLinesByPosition | d23d/detection/foundation_detector.py:251-294 | the method returns the clusters of the specification function |
| FoundationDetection.MeansIncreasing | d23d/detection/foundation_detector.py:311-325 | the centres of ordered runs are strictly increasing |
| FoundationDetection.CoordinateCentres | d23d/detection/foundation_detector.py:297-327 | there are no centres iff there are no coordinates, at most one per distinct coordinate, strictly increasing |
| FoundationDetection.CoordinateCentreBounds | d23d/detection/foundation_detector.py:311-325 | each centre lies between the least and greatest coordinate of its run, all of them input coordinates |
| FoundationDetection.MeansOfRuns | d23d/detection/foundation_detector.py:313-325 | the loop over unique coordinates returns the run means of the specification function |
| FoundationDetection.ClusterCoordinates | d23d/detection/foundation_detector.py:297-327 | the method returns the centres of the specification function |
| PolylineExtraction.PathLengthNonNeg | d23d/parsers/polyline_extractor.py:41-43 | the sum of edge lengths is non-negative |
| PolylineExtraction.PerimeterNonNeg | d23d/parsers/polyline_extractor.py:36-49 | the perimeter is non-negative and closing a polyline never shortens it |
| PolylineExtraction.PathLengthPrepend | d23d/parsers/polyline_extractor.py:41-43 | adding a vertex in front adds exactly the length of the new first edge |
| PolylineExtraction.PathLengthReversed | d23d/parsers/polyline_extractor.py:41-43 | the open path through the vertices has the same length in either direction |
| PolylineExtraction.PerimeterReversed | d23d/parsers/polyline_extractor.py:36-49 | reversing the vertex order leaves the perimeter unchanged, closing edge included |
| PolylineExtraction.PolylinePerimeter | d23d/parsers/polyline_extractor.py:36-49 | the loop computes the perimeter: 0 below two vertices, the edges in order, plus the closing edge when closed with more than two vertices |
| PolylineExtraction.AreaSpec | d23d/parsers/polyline_extractor.py:51-68 | the area is never negative |
| PolylineExtraction.PolylineArea | d23d/parsers/polyline_extractor.py:51-68 | the loop computes half the absolute shoelace sum of a closed polyline with three or more vertices, and 0 otherwise |
| PolylineExtraction.AxisRectangleArea | d23d/parsers/polyline_extractor.py:51-68 | the area of a closed axis-aligned w by h rectangle is w times h |
| PolylineExtraction.AxisEdgeLength | d23d/parsers/polyline_extractor.py:43 | an edge parallel to an axis is as long as its coordinate difference |
| PolylineExtraction.AxisRectanglePerimeter | d23d/parsers/polyline_extractor.py:36-49 | the perimeter of a closed axis-aligned w by h rectangle is 2(w + h) |
| PolylineExtraction.Xs | d23d/parsers/polyline_extractor.py:80-83 | the x coordinates of the vertices, in order |
| PolylineExtraction.Ys | d23d/parsers/polyline_extractor.py:80-83 | the y coordinates of the vertices, in order |
| PolylineExtraction.BoundingBoxOf | d23d/parsers/polyline_extractor.py:70-85 | with no vertices the box is all zeros; otherwise it holds every vertex and each bound is some vertex's coordinate |
| PolylineExtraction.EdgeSquaresNonNeg | d23d/parsers/polyline_extractor.py:117-118 | the squared edge lengths under the square roots are non-negative |
| PolylineExtraction.CheckCorner | d23d/parsers/polyline_extractor.py:104-124 | one iteration passes iff an edge is empty or the absolute cosine between the two edges is at most 0.1 |
| PolylineExtraction.CheckCosine | d23d/parsers/polyline_extractor.py:120-124 | the cosine test passes iff an edge length is not positive or the absolute cosine is at most 0.1 |
| PolylineExtraction.IsRectangular | d23d/parsers/polyline_extractor.py:87-126 | true iff the polyline is closed, has exactly four vertices and every corner passes the cosine test |
| PolylineExtraction.RightCornerSquared | d23d/parsers/polyline_extractor.py:115-124 | a corner passes iff an edge is empty or dot² ≤ 0.01 times the product of the squared edge lengths, a test free of square roots |
| PolylineExtraction.AxisRectangleIsRectangular | d23d/parsers/polyline_extractor.py:87-126 | every closed axis-aligned rectangle is rectangular |
| PolylineExtraction.PerpendicularCorner | d23d/parsers/polyline_extractor.py:104-124 | a corner whose edges are parallel to different axes passes |
| PolylineExtraction.SlantedQuadNotRectangular | d23d/parsers/polyline_extractor.py:87-126 | a closed quadrilateral with a slanted edge is rejected |
| WallClassification.LowerAscii | d23d/classification/wall_classifier.py:145 | lower-casing keeps the length and maps exactly the letters A to Z to a to z |
| WallClassification.LayerBonusCases | d23d/classification/wall_classifier.py:140-146 | no layer list or an empty one gives no bonus; a listed layer gives 0.2; 0.1 is given exactly for an unlisted layer whose lower-cased name contains "wall" under a non-empty list; no other bonus occurs |
| WallClassification.ConfidenceRange | d23d/classification/wall_classifier.py:138-175 | the confidence lies in [0.4, 1.0], so it is a valid confidence, and it is 1.0 exactly when the uncapped sum reaches 1.0 |
| WallClassification.FullConfidence | d23d/classification/wall_classifier.py:138-175 | a listed, rectangular polyline of perimeter 10 m to 200 m that lies near the grid boundary scores 1.0 |
| WallClassification.CalculateConfidence | d23d/classification/wall_classifier.py:114-175 | the method computes the capped sum of the base and the four bonuses, which lies in [0.4, 1.0] |
| WallClassification.IsPerimeterWall | d23d/classification/wall_classifier.py:218-235 | only an edge of a closed polyline with three or more vertices can be a perimeter wall |
| WallClassification.PolylineWallsSpec | d23d/classification/wall_classifier.py:177-216 | a polyline gives one wall per vertex |
| WallClassification.PolylineWallsFields | d23d/classification/wall_classifier.py:192-235 | wall i starts at vertex i on the polyline's layer with the default thickness and height, and is exterior and structural exactly when the area exceeds 100 000 000 mm² |
| WallClassification.PolylineWallsChain | d23d/classification/wall_classifier.py:192-198 | each wall ends where the next one starts, the last one closing back to the first vertex |
| WallClassification.PolylineToWalls | d23d/classification/wall_classifier.py:177-216 | the loop builds the walls of the specification function |
| WallClassification.Stamped | d23d/classification/wall_classifier.py:105-108 | stamping the confidence and layer keeps one wall per segment |
| WallClassification.ConcatMapAppend | d23d/classification/wall_classifier.py:80-108 | the per-polyline results of a concatenation are the concatenated results |
| WallClassification.ClassifySnoc | d23d/classification/wall_classifier.py:80-108 | one more polyline appends exactly its own walls, or nothing, to the result |
| WallClassification.ClassifyAppend | d23d/classification/wall_classifier.py:80-108 | classifying two lists in turn is classifying their concatenation |
| WallClassification.ClassifiedWallsFacts | d23d/classification/wall_classifier.py:80-108 | every wall comes from a closed polyline within the perimeter and area bounds, carries its layer and its confidence, and has confidence in [0.4, 1.0] |
| WallClassification.ClassifyCount | d23d/classification/wall_classifier.py:80-108 | the number of walls is the total vertex count of the kept polylines |
| WallClassification.OpenPolylineDropped | d23d/classification/wall_classifier.py:81-83 | an open polyline gives no walls |
| WallClassification.AppendStamped | d23d/classification/wall_classifier.py:105-108 | the inner loop appends the segments, stamped, after the walls so far |
| WallClassification.Classify | d23d/classification/wall_classifier.py:59-112 | the classifier returns the walls of the specification function |
| WallClassification.ClassifyExteriorVsInterior | d23d/classification/wall_classifier.py:237-256 | the refinement is not implemented and returns the walls unchanged |
| ColumnGeneration.EdgeLabelsMembers | d23d/generation/column_generator.py:118-134 | a label is collected for one axis iff some intersection on the first or last line of that axis carries it |
| ColumnGeneration.PerimeterLabelsMembers | d23d/generation/column_generator.py:105-136 | a label is a perimeter label iff some intersection on the first or last horizontal or vertical line carries it; a grid without lines has none |
| ColumnGeneration.AddEdgeLabels | d23d/generation/column_generator.py:118-134 | one edge loop adds exactly the labels of that axis's edge intersections |
| ColumnGeneration.EdgeLabelsNoLines | d23d/generation/column_generator.py:118-127 | an axis without lines contributes no labels |
| ColumnGeneration.GetPerimeterLabels | d23d/generation/column_generator.py:105-136 | the method returns exactly the perimeter labels |
| ColumnGeneration.ColumnsFrom | d23d/generation/column_generator.py:74-99 | no more columns are placed than there are intersections |
| ColumnGeneration.ColumnsFromAppend | d23d/generation/column_generator.py:74-99 | the loop's result on a concatenation is the concatenation of its results, so intersection order is kept |
| ColumnGeneration.ColumnsFromMembers | d23d/generation/column_generator.py:74-99 | a column is placed iff it is the default-size column at some intersection that passes the confidence and perimeter tests |
| ColumnGeneration.GenerateFacts | d23d/generation/column_generator.py:47-103 | every column stands at an intersection of at least the minimum confidence, off the perimeter when that is excluded; without exclusion every such intersection gets its column |
| ColumnGeneration.ColumnsLoop | d23d/generation/column_generator.py:74-99 | the loop places the columns of the specification function |
| ColumnGeneration.Generate | d23d/generation/column_generator.py:47-103 | `generate` returns the columns of the specification function |
| ColumnGeneration.Resized | d23d/generation/column_generator.py:157-165 | resizing keeps one column per column |
| ColumnGeneration.ResizedFacts | d23d/generation/column_generator.py:157-165 | only width and depth change, to the listed size when the column's grid reference is listed, otherwise nothing changes; resizing twice is resizing once |
| ColumnGeneration.ApplySizes | d23d/generation/column_generator.py:157-165 | the in-place loop leaves the array resized as specified |
| ColumnGeneration.GenerateWithSizing | d23d/generation/column_generator.py:138-167 | the result is the full set of columns, perimeter included, resized |
| SlabGeneration.ExpandedBoundary | d23d/generation/slab_generator.py:59-64 | four vertices, counter-clockwise from the lower left, at the grid box grown by the margin on every side |
| SlabGeneration.GenerateFromGrid | d23d/generation/slab_generator.py:44-81 | the slab has that boundary, the generator's thickness and elevation, is not a roof, and its confidence (0.9 times the grid's) stays valid and never exceeds a non-negative grid confidence |
| SlabGeneration.SlabCoversGrid | d23d/generation/slab_generator.py:59-64 | with a non-negative margin the slab covers every point of the grid box |
| SlabGeneration.SlabBoundaryArea | d23d/generation/slab_generator.py:74-77 | the shoelace area of the boundary equals the product of the grown extents, the area the generator reports |
| SlabGeneration.GenerateFromWalls | d23d/generation/slab_generator.py:83-110 | the walls are ignored: a grid gives its one grid slab, no grid gives none |
| SlabGeneration.GenerateSlabsFacts | d23d/generation/slab_generator.py:113-137 | the result does not depend on the walls: one grid slab when a grid is given, none otherwise |
| ColumnHeightDetection.StrLessIrreflexive | d23d/detection/column_height_detector.py:94 | the string order used by `sorted` is irreflexive |
| ColumnHeightDetection.StrLessAsymmetric | d23d/detection/column_height_detector.py:94 | the string order is asymmetric |
| ColumnHeightDetection.StrLessTransitive | d23d/detection/column_height_detector.py:94 | the string order is transitive |
| ColumnHeightDetection.StrLessTotal | d23d/detection/column_height_detector.py:94 | any two distinct strings are ordered |
| ColumnHeightDetection.InsertFloor | d23d/detection/column_height_detector.py:94 | insertion adds exactly the one floor |
| ColumnHeightDetection.SortFloors | d23d/detection/column_height_detector.py:94 | sorting the floors is a permutation |
| ColumnHeightDetection.InsertFloorAscending | d23d/detection/column_height_detector.py:94 | inserting a new key into an ascending list keeps it ascending |
| ColumnHeightDetection.SortFloorsAscending | d23d/detection/column_height_detector.py:94 | floors with distinct numbers come out in strictly ascending string order |
| ColumnHeightDetection.FoundOnFloor | d23d/detection/column_height_detector.py:98-105 | the scan with break finds a column iff some column on the floor lies within the tolerance on both axes |
| ColumnHeightDetection.HighestPresentLast | d23d/detection/column_height_detector.py:114-119 | the reverse scan finds no floor iff the column is on none; otherwise it names a floor where it is present with no later floor present |
| ColumnHeightDetection.HighestPresentIsMaximum | d23d/detection/column_height_detector.py:94-119 | after sorting, the floor found is the greatest floor number on which the column is present, and there is none iff it is present on no upper floor |
| ColumnHeightDetection.LastPresentIsMaximum | d23d/detection/column_height_detector.py:108-118 | over floors in ascending order, the reverse scan finds the greatest floor number with the column, and none iff the column is on no floor |
| ColumnHeightDetection.HeightsSpecLookup | d23d/detection/column_height_detector.py:84-124 | a ground column not overwritten by a later one at the same rounded position gets the height from the ground elevation to the top of its highest floor |
| ColumnHeightDetection.HeightsSpecKeys | d23d/detection/column_height_detector.py:87-124 | the keys of the result are exactly the rounded positions of the ground columns |
| ColumnHeightDetection.FloorPresence | d23d/detection/column_height_detector.py:92-107 | the presence map records, for every upper floor, whether the column appears on it |
| ColumnHeightDetection.LastElevation | d23d/detection/column_height_detector.py:111-119 | the top elevation is the elevation of the highest floor present, defaulting to 8000 when that floor or every floor is missing |
| ColumnHeightDetection.DetectColumnHeights | d23d/detection/column_height_detector.py:56-124 | the method returns the heights of the specification function, with the default elevation table when none is given |
| ColumnHeightDetection.DetectedHeights | d23d/detection/column_height_detector.py:159-170 | one column out per column in |
| ColumnHeightDetection.DetectedHeightsFacts | d23d/detection/column_height_detector.py:159-170 | only the height changes: to the detected height at the rounded position, else to the default; applying twice is applying once |
| ColumnHeightDetection.ApplyDetectedHeights | d23d/detection/column_height_detector.py:140-174 | the in-place loop leaves every column with its applied height |
| ColumnHeightFromReference.Lookup | d23d/detection/column_height_from_reference.py:170-173 | there is no entry iff no key equals the position, and an entry found is stored under it |
| ColumnHeightFromReference.SquaredOffset | d23d/detection/column_height_from_reference.py:182-184 | the squared offset under the root is non-negative |
| ColumnHeightFromReference.BestFromIsNearest | d23d/detection/column_height_from_reference.py:177-189 | there is no fuzzy match iff no entry is strictly within tolerance; otherwise the match is a nearest entry within tolerance, the earliest of equally near ones |
| ColumnHeightFromReference.WithinToleranceSquared | d23d/detection/column_height_from_reference.py:182-186 | with a non-negative tolerance, an entry is within tolerance iff dx² + dy² < tol² |
| ColumnHeightFromReference.ReferenceHeights | d23d/detection/column_height_from_reference.py:156-196 | one column out per column in |
| ColumnHeightFromReference.ReferenceHeightsFacts | d23d/detection/column_height_from_reference.py:156-196 | only the height changes: an exact entry wins; else the nearest entry strictly within tolerance; else the default |
| ColumnHeightFromReference.FuzzyMatch | d23d/detection/column_height_from_reference.py:177-189 | the scan returns the height of the specification function's best match, or none |
| ColumnHeightFromReference.ApplyReferenceHeights | d23d/detection/column_height_from_reference.py:138-200 | the in-place loop leaves every column with its reference height, all defaults for an empty table |
| SpatialIndexing.CalculateBox | d23d/spatial/spatial_index.py:314-379 | the computation fails exactly for a slab with no boundary vertices, and gives no box exactly for an element kind without a rule |
| SpatialIndexing.BoxContainsElement | d23d/spatial/spatial_index.py:324-376 | for non-negative sizes each box is well formed and holds the element's defining points |
| SpatialIndexing.BoxIsTight | d23d/spatial/spatial_index.py:324-376 | each face of a grid line's or slab's box is reached by one of its points, so no smaller axis-aligned box holds them |
| SpatialIndexing.QueryBox | d23d/spatial/spatial_index.py:234-241 | the query box has side 2r on every axis and, for r ≥ 0, is well formed and holds the query point |
| SpatialIndexing.QueryBoxCoversDisc | d23d/spatial/spatial_index.py:234-243 | every point within the radius of the query point lies in the query box at height zero |

## Left out

- DXF reading, IFC writing, the SQLite storage and queries of the spatial index, configuration files, and the command-line scripts are outside the model. They are library I/O or orchestration. The same goes for `extract_polylines`, `extract_heights_from_reference_ifc` and `get_floor_dxf_paths`.
- The parser-facing front halves are outside the model too: `detect_grids`, the layer lookups of `detect_walls`, the layer discovery of `detect_foundations`, and the DXF parsing of `detect_column_heights`. The model starts from the lists those steps produce. For column heights these are the ground column positions, plus the upper floors as (floor number, column positions) pairs in dictionary order.
- The convenience wrappers `classify_walls` and `generate_columns` only build a default object and call the modelled method. They are not modelled separately.
- Logging is left out, and so are the values computed only for it: the matched/unmatched counters, the slab's `area_m2`, the type counts, and the clusters `group_lines_into_foundations` computes before matching. The area of the slab boundary is proved instead (`SlabGeneration.SlabBoundaryArea`).
- GUID generation, `datetime.now()` and the `merged_from` metadata (a list of GUIDs) are left out, because they depend on random identifiers and the clock.
- IEEE floating point is not modelled. Coordinates are exact reals, so rounding error, NaN and infinity do not occur. `float('inf')` in the fuzzy height match is the `None` initial state. The 1e-6 and 1e-10 epsilons are kept as constants.
- `sqrt` and `atan2` are abstract (`Numeric.Math`). Only the facts in `Numeric.ValidMath` are known about them. A result that depends on their exact values is stated relative to them.
- Pydantic behaviour beyond the confidence range check is not modelled. This includes validation of other fields and copy semantics. Lists of records are sequences of values, so aliasing between list entries cannot be expressed.
- Python truthiness of model objects is taken as it is in the code. `BaseModel` defines neither `__bool__` nor `__len__`, so `if intersection_point:` and `if grid:` both mean "is not None".
- `WallClassification.LowerAscii`: `str.lower()` is modelled on ASCII letters only. Other characters are left unchanged.
- The `ElementType.FOUNDATION` tag used by the foundation detector is missing from the enum. `Foundation` is modelled as its own record without an element-type field, and the import failure is not modelled.
- `PolylineExtraction.IsRectangular`: the `tolerance` parameter of `is_rectangular` is never read by the code. The model keeps the parameter and never reads it either. `CalculateConfidence` passes `DefaultRectangularTolerance` (100.0), the default the program's call relies on.
- `WallIntersections.AdjustWallFacts`: the rebuilt wall leaves `is_exterior` and `is_structural` at their defaults (false), as the code does. This drops the flags a classifier may have set, and the model keeps that behaviour.
- `ColumnHeightDetection.DetectColumnHeights` requires the upper floors to have distinct floor numbers, as the keys of a dictionary do. `FloorPresence` requires the same.
- `ColumnHeightFromReference.ReferenceHeights`: the reference table is an insertion-ordered list of entries. The contracts do not need distinct keys: with repeated keys the first entry stored under a key wins. The program's tables are dictionaries, so their keys are distinct (a second assignment to a key replaces the value in place), and the repeated-key case never arises from the program.
- `_point_to_line_distance` is called by no modelled operation. It is modelled and proved on its own (`WallIntersections.PointToLineDistanceMinimal`).

## Findings

In both rows the operations of the program (`WallDetection.MergeWallSegments`, `FoundationDetection.GroupLinesIntoFoundations`, `FoundationDetection.DetectFoundations`) are modelled as written. The corrected definitions sit beside them and are proved separately.

| source | as written | input that shows it | evidently intended | confidence | as-written member | corrected member |
|---|---|---|---|---|---|---|
| d23d/detection/wall_detector.py:26-28 | the comment at line 26 says the angles are normalised "since lines are bidirectional", but `_angles_close` reduces `abs(angle) % π`, so the sign of an angle is dropped before folding | a diagonal wall at angle 0.1 and its reversal at 0.1 − π are not close (the folded gap is 0.2 > 0.017), so an end-to-end or start-to-start merge of collinear diagonal walls is refused; mirror images 0.2 and −0.2 count as close | compare the undirected directions `angle % π`, so a segment and its reversal agree and mirror images do not | not executed; high | WallDetection.AnglesClose (shown by WallDetection.ReversedDiagonalNotClose and WallDetection.MirroredAnglesClose) | WallDetection.AnglesCloseUndirected (proved by WallDetection.ReversedAnglesCloseUndirected and WallDetection.AnglesCloseUndirectedFacts; used by WallDetection.DecideUndirected, with the effect on merging shown by WallDetection.ReversedDiagonalWallsUnmerged and WallDetection.ReversedDiagonalPairKept) |
| d23d/detection/foundation_detector.py:170-244 | one `used_lines` set holds both horizontal and vertical list indices, so marking vertical k also blocks horizontal k and the reverse | two 300 × 300 caps side by side at x = 0 and x = 1000, with the second cap's vertical sides listed first: the first cap marks vertical indices 2 and 3, which are the second cap's horizontal indices, so only one foundation is found | one used set per orientation, so both caps are found | not executed; high | FoundationDetection.GroupAsWritten (shown by FoundationDetection.AsWrittenMatches and FoundationDetection.SharedSetMissesRectangle) | FoundationDetection.GroupCorrected (proved by FoundationDetection.CorrectedMatches, FoundationDetection.SharedSetMissesRectangle, FoundationDetection.FoundationFacts and FoundationDetection.FoundationsDisjoint) |
