/**
 * Wall segment merging: the predicates that decide whether two wall segments continue
 * each other (same section, parallel, touching ends, the joint on the line through the
 * far ends), the merge of two such segments into one, the merge pass that consumes each
 * segment at most once, the bounded repetition of passes, and the rule that turns a
 * drawn line into a wall.
 */
module WallDetection {
  import opened Numeric
  import opened Wrappers
  import opened Models

  // ---------------------------------------------------------------- point and angle tests

  /** `_points_close`: the distance is strictly below the tolerance. */
  function PointsClose(m: Math, p: Point2D, q: Point2D, tol: real): (r: bool)
    requires ValidMath(m)
    ensures r ==> tol > 0.0
  {
    DistanceTo(m, p, q) < tol
  }

  /** The test is symmetric, is the squared comparison, and (being strict) accepts a point itself only for a positive tolerance. */
  lemma PointsCloseFacts(m: Math, p: Point2D, q: Point2D, tol: real)
    requires ValidMath(m)
    ensures PointsClose(m, p, q, tol) <==> PointsClose(m, q, p, tol)
    ensures tol >= 0.0 ==> (PointsClose(m, p, q, tol) <==> SqDist(p, q) < tol * tol)
    ensures PointsClose(m, p, p, tol) <==> tol > 0.0
  {
    DistanceSymmetric(m, p, q);
    DistanceZero(m, p);
    if tol >= 0.0 {
      DistanceLess(m, p, q, tol);
    }
  }

  /** The gap between two values of [0, pi), going round the wrap-around at pi the shorter way. */
  function FoldedGap(a1: real, a2: real): real
  {
    var diff := Abs(a1 - a2);
    if diff > Pi / 2.0 then Pi - diff else diff
  }

  /** Two directions of [0, pi) are never more than a quarter turn apart. */
  lemma FoldedGapRange(a1: real, a2: real)
    requires 0.0 <= a1 < Pi && 0.0 <= a2 < Pi
    ensures 0.0 <= FoldedGap(a1, a2) <= Pi / 2.0
  {
  }

  /**
   * `_angles_close` as written: each angle's magnitude is reduced mod pi, and the two are
   * compared with wrap-around. Taking `abs` first identifies an angle with its mirror image.
   */
  function AnglesClose(angle1: real, angle2: real, tol: real): (r: bool)
    ensures r ==> tol > 0.0
    ensures tol > Pi / 2.0 ==> r
  {
    FoldedGapRange(FMod(Abs(angle1), Pi), FMod(Abs(angle2), Pi));
    FoldedGap(FMod(Abs(angle1), Pi), FMod(Abs(angle2), Pi)) < tol
  }

  /** The as-written test is symmetric, sees only magnitudes, and accepts the axis-aligned reversed pairs. */
  lemma AnglesCloseFacts(a1: real, a2: real, tol: real)
    ensures AnglesClose(a1, a2, tol) <==> AnglesClose(a2, a1, tol)
    ensures AnglesClose(a1, a2, tol) <==> AnglesClose(-a1, a2, tol)
    ensures tol > 0.0 ==> AnglesClose(0.0, Pi, tol) && AnglesClose(Pi / 2.0, -Pi / 2.0, tol)
  {
    assert Abs(-a1) == Abs(a1);
    var f1, f2 := FMod(Abs(a1), Pi), FMod(Abs(a2), Pi);
    assert Abs(f1 - f2) == Abs(f2 - f1);
    FModInRange(0.0, Pi);
    FModInRange(Pi, Pi);
    FModInRange(Pi / 2.0, Pi);
  }

  /**
   * The direction-free angle test `_angles_close` means to be: both angles reduced mod pi
   * (Python's floored `%`), so that a segment and its reversal have the same direction.
   */
  function AnglesCloseUndirected(angle1: real, angle2: real, tol: real): (r: bool)
    ensures r ==> tol > 0.0
    ensures tol > Pi / 2.0 ==> r
  {
    FoldedGapRange(FMod(angle1, Pi), FMod(angle2, Pi));
    FoldedGap(FMod(angle1, Pi), FMod(angle2, Pi)) < tol
  }

  /** The corrected test is symmetric and reflexive, and ignores half-turns of either angle. */
  lemma AnglesCloseUndirectedFacts(a1: real, a2: real, tol: real)
    ensures AnglesCloseUndirected(a1, a2, tol) <==> AnglesCloseUndirected(a2, a1, tol)
    ensures AnglesCloseUndirected(a1, a1, tol) <==> tol > 0.0
    ensures AnglesCloseUndirected(a1 - Pi, a2, tol) <==> AnglesCloseUndirected(a1, a2, tol)
  {
    var f1, f2 := FMod(a1, Pi), FMod(a2, Pi);
    assert Abs(f1 - f2) == Abs(f2 - f1);
    FModShift(a1, Pi);
  }

  /** A segment and its reversal always have close directions under the corrected test. */
  lemma ReversedAnglesCloseUndirected(m: Math, l: Line2D, tol: real)
    requires ValidMath(m) && tol > 0.0
    ensures AnglesCloseUndirected(Angle(m, l), Angle(m, Reversed(l)), tol)
  {
    var a, b := Angle(m, l), Angle(m, Reversed(l));
    var dy, dx := l.end.y - l.start.y, l.end.x - l.start.x;
    assert l.start.y - l.end.y == -dy && l.start.x - l.end.x == -dx;
    assert b == m.atan2(-dy, -dx);
    if dy == 0.0 && dx == 0.0 {
      assert a == b;
    } else if dy > 0.0 {
      AngleReversed(m, l);
      assert b == a - Pi;
    } else if dy < 0.0 {
      AngleReversed(m, l);
      assert a == b - Pi;
    } else if dx > 0.0 {
      assert a == 0.0 && b == Pi;
    } else {
      assert a == Pi && b == 0.0;
    }
    HalfTurnApartClose(a, b, tol);
  }

  /** Two angles equal or a half-turn apart are close under the corrected test. */
  lemma HalfTurnApartClose(a: real, b: real, tol: real)
    requires tol > 0.0
    requires a == b || b == a - Pi || a == b - Pi || (a == 0.0 && b == Pi) || (a == Pi && b == 0.0)
    ensures AnglesCloseUndirected(a, b, tol)
  {
    if a == b {
    } else if b == a - Pi {
      FModShift(a, Pi);
    } else if a == b - Pi {
      FModShift(b, Pi);
    } else {
      FModInRange(0.0, Pi);
      FModInRange(Pi, Pi);
    }
  }

  /**
   * The as-written test rejects a diagonal segment against its own reversal: at angle 0.1
   * the reversal has angle 0.1 - pi, the magnitudes fold to 0.1 and pi - 0.1, 0.2 apart.
   */
  lemma ReversedDiagonalNotClose(m: Math, l: Line2D)
    requires ValidMath(m) && Angle(m, l) == 0.1
    ensures !AnglesClose(Angle(m, l), Angle(m, Reversed(l)), DefaultAngleTolerance)
    ensures AnglesCloseUndirected(Angle(m, l), Angle(m, Reversed(l)), DefaultAngleTolerance)
  {
    AngleSign(m, l);
    AngleReversed(m, l);
    var b := Angle(m, Reversed(l));
    assert b == 0.1 - Pi;
    assert Abs(b) == Pi - 0.1;
    FModInRange(0.1, Pi);
    FModInRange(Pi - 0.1, Pi);
    ReversedAnglesCloseUndirected(m, l, DefaultAngleTolerance);
  }

  /** `atan2` has the sign of `dy` off the x axis and is 0 or pi on it. */
  lemma AngleSign(m: Math, l: Line2D)
    requires ValidMath(m)
    ensures var dy := l.end.y - l.start.y;
      && (dy > 0.0 ==> Angle(m, l) > 0.0)
      && (dy < 0.0 ==> Angle(m, l) < 0.0)
      && (dy == 0.0 ==> Angle(m, l) == 0.0 || Angle(m, l) == Pi)
  {
    var dy, dx := l.end.y - l.start.y, l.end.x - l.start.x;
    if dy == 0.0 {
      assert Angle(m, l) == m.atan2(0.0, dx);
    }
  }

  /** The as-written test accepts mirror images 0.4 rad apart; the corrected one does not. */
  lemma MirroredAnglesClose()
    ensures AnglesClose(0.2, -0.2, DefaultAngleTolerance)
    ensures !AnglesCloseUndirected(0.2, -0.2, DefaultAngleTolerance)
  {
    FModInRange(0.2, Pi);
    FModInRange(Pi - 0.2, Pi);
    FModShift(Pi - 0.2, Pi);
    assert FMod(-0.2, Pi) == Pi - 0.2;
  }

  /** The cross term of `_points_collinear`: twice the signed area of the triangle p1, p2, p3. */
  function CollinearCross(p1: Point2D, p2: Point2D, p3: Point2D): real
  {
    var dx, dy := p3.x - p1.x, p3.y - p1.y;
    dy * p2.x - dx * p2.y + p3.x * p1.y - p3.y * p1.x
  }

  /**
   * `_points_collinear`: true when p1 and p3 (nearly) coincide, otherwise whether p2's
   * perpendicular distance from the line through p1 and p3 is below `tol`.
   */
  function PointsCollinear(m: Math, p1: Point2D, p2: Point2D, p3: Point2D, tol: real): (r: bool)
    requires ValidMath(m)
    ensures tol <= 0.0 ==> (r <==> DistanceTo(m, p3, p1) < 0.000001)
  {
    var length := DistanceTo(m, p3, p1);
    if length < 0.000001 then true
    else Abs(CollinearCross(p1, p2, p3)) / length < tol
  }

  /** Away from the degenerate case the test is the square-root-free `cross^2 < tol^2 * |p1 p3|^2`. */
  lemma PointsCollinearSquared(m: Math, p1: Point2D, p2: Point2D, p3: Point2D, tol: real)
    requires ValidMath(m) && tol >= 0.0 && DistanceTo(m, p3, p1) >= 0.000001
    ensures PointsCollinear(m, p1, p2, p3, tol) <==>
      CollinearCross(p1, p2, p3) * CollinearCross(p1, p2, p3) < tol * tol * SqDist(p3, p1)
  {
    var len := DistanceTo(m, p3, p1);
    var c := CollinearCross(p1, p2, p3);
    var a := Abs(c);
    QuotientLess(a, len, tol);
    var tl := tol * len;
    MulSigns(tol, len);
    assert a * a == c * c;
    if a < tl {
      SquareLess(a, tl);
    } else {
      SquareLe(tl, a);
    }
    assert tl * tl == tol * tol * (len * len);
  }

  /** For a positive divisor, `a / d < t` is `a < t * d`. */
  lemma QuotientLess(a: real, d: real, t: real)
    requires d > 0.0
    ensures a / d < t <==> a < t * d
  {
    var q := a / d;
    assert q * d == a;
    if q < t {
      MulLt(q, t, d);
    } else {
      MulLe(t, q, d);
    }
  }

  /** Either end of the reference segment is collinear with it, for a positive tolerance. */
  lemma EndpointsCollinear(m: Math, p1: Point2D, p3: Point2D, tol: real)
    requires ValidMath(m) && tol > 0.0
    ensures PointsCollinear(m, p1, p1, p3, tol) && PointsCollinear(m, p1, p3, p3, tol)
  {
    assert CollinearCross(p1, p1, p3) == 0.0;
    assert CollinearCross(p1, p3, p3) == 0.0;
  }

  // ---------------------------------------------------------------- merge decision

  const DefaultAngleTolerance: real := 0.017
  const DefaultPointTolerance: real := 10.0
  const CollinearTolerance: real := 50.0
  const DefaultMaxIterations: int := 10

  const EndToStart: string := "end_to_start"
  const StartToEnd: string := "start_to_end"
  const EndToEnd: string := "end_to_end"
  const StartToStart: string := "start_to_start"

  /** The four connection types in the order `_can_merge_walls` tries them. */
  const ConnectionOrder: seq<string> := [EndToStart, StartToEnd, EndToEnd, StartToStart]

  /** The tolerances `merge_wall_segments` hands to `_can_merge_walls`. */
  datatype Tolerances = Tolerances(angle: real, point: real)

  /** The joint and far ends a connection type names: w1's joint, w2's joint, w1's far end, w2's far end. */
  function Ends(w1: Wall, w2: Wall, connection: string): Option<(Point2D, Point2D, Point2D, Point2D)>
  {
    var s1, e1, s2, e2 := w1.centerline.start, w1.centerline.end, w2.centerline.start, w2.centerline.end;
    if connection == EndToStart then Some((e1, s2, s1, e2))
    else if connection == StartToEnd then Some((s1, e2, e1, s2))
    else if connection == EndToEnd then Some((e1, e2, s1, s2))
    else if connection == StartToStart then Some((s1, s2, e1, e2))
    else None
  }

  /** A connection type applies when its two joints touch and w1's joint lies on the line through the far ends. */
  predicate Joins(m: Math, w1: Wall, w2: Wall, connection: string, pointTol: real)
    requires ValidMath(m)
  {
    match Ends(w1, w2, connection)
    case None => false
    case Some((j1, j2, f1, f2)) => PointsClose(m, j1, j2, pointTol) && PointsCollinear(m, f1, j1, f2, CollinearTolerance)
  }

  /**
   * Which angle test a merge decision applies: `AsWritten` is `_angles_close` as the code
   * computes it, `Undirected` the direction-free test it means.
   */
  datatype AngleTest = AsWritten | Undirected

  predicate AnglesAgree(test: AngleTest, angle1: real, angle2: real, tol: real)
  {
    if test.AsWritten? then AnglesClose(angle1, angle2, tol) else AnglesCloseUndirected(angle1, angle2, tol)
  }

  /** Same section (thickness and height within 1 mm) and parallel directions under the given angle test. */
  predicate Compatible(m: Math, w1: Wall, w2: Wall, angleTol: real, test: AngleTest)
    requires ValidMath(m)
  {
    && Abs(w1.thickness - w2.thickness) <= 1.0
    && Abs(w1.height - w2.height) <= 1.0
    && AnglesAgree(test, Angle(m, w1.centerline), Angle(m, w2.centerline), angleTol)
  }

  /**
   * `_can_merge_walls` (with `AsWritten`, as the code computes it): `(false, "")` for different
   * sections or directions, otherwise the first of end-to-start, start-to-end, end-to-end and
   * start-to-start whose ends touch and are collinear.
   */
  function CanMergeWalls(m: Math, w1: Wall, w2: Wall, tol: Tolerances, test: AngleTest): (r: (bool, string))
    requires ValidMath(m)
    ensures r.0 <==> r.1 != ""
    ensures r.0 ==> r.1 in ConnectionOrder
  {
    if Abs(w1.thickness - w2.thickness) > 1.0 || Abs(w1.height - w2.height) > 1.0 then (false, "")
    else if !AnglesAgree(test, Angle(m, w1.centerline), Angle(m, w2.centerline), tol.angle) then (false, "")
    else
      var s1, e1, s2, e2 := w1.centerline.start, w1.centerline.end, w2.centerline.start, w2.centerline.end;
      if PointsClose(m, e1, s2, tol.point) && PointsCollinear(m, s1, e1, e2, CollinearTolerance) then (true, EndToStart)
      else if PointsClose(m, s1, e2, tol.point) && PointsCollinear(m, e1, s1, s2, CollinearTolerance) then (true, StartToEnd)
      else if PointsClose(m, e1, e2, tol.point) && PointsCollinear(m, s1, e1, s2, CollinearTolerance) then (true, EndToEnd)
      else if PointsClose(m, s1, s2, tol.point) && PointsCollinear(m, e1, s1, e2, CollinearTolerance) then (true, StartToStart)
      else (false, "")
  }

  /**
   * Two walls merge exactly when they are compatible and some connection type joins them,
   * and the type returned is the first in `ConnectionOrder` that does.
   */
  lemma CanMergeFirstJoin(m: Math, w1: Wall, w2: Wall, tol: Tolerances, test: AngleTest)
    requires ValidMath(m)
    ensures var r := CanMergeWalls(m, w1, w2, tol, test);
      && (r.0 <==> Compatible(m, w1, w2, tol.angle, test) && exists k :: 0 <= k < 4 && Joins(m, w1, w2, ConnectionOrder[k], tol.point))
      && (r.0 ==> Joins(m, w1, w2, r.1, tol.point))
      && (forall k :: 0 <= k < 4 && ConnectionOrder[k] == r.1 ==>
            forall k' :: 0 <= k' < k ==> !Joins(m, w1, w2, ConnectionOrder[k'], tol.point))
  {
    var r := CanMergeWalls(m, w1, w2, tol, test);
    assert Joins(m, w1, w2, EndToStart, tol.point) ==
      (PointsClose(m, w1.centerline.end, w2.centerline.start, tol.point) &&
       PointsCollinear(m, w1.centerline.start, w1.centerline.end, w2.centerline.end, CollinearTolerance));
    if r.0 {
      var k :| 0 <= k < 4 && ConnectionOrder[k] == r.1;
      assert Joins(m, w1, w2, ConnectionOrder[k], tol.point);
    }
  }

  /**
   * A diagonal wall at angle 0.1 never merges, as written, with a wall drawn the other way
   * (angle 0.1 - pi), however its ends lie; under the direction-free test the two merge
   * exactly when their sections agree and some connection type joins them.
   */
  lemma ReversedDiagonalWallsUnmerged(m: Math, w1: Wall, w2: Wall, tol: Tolerances)
    requires ValidMath(m) && tol.angle == DefaultAngleTolerance
    requires Angle(m, w1.centerline) == 0.1 && Angle(m, w2.centerline) == 0.1 - Pi
    ensures !CanMergeWalls(m, w1, w2, tol, AsWritten).0
    ensures CanMergeWalls(m, w1, w2, tol, Undirected).0 <==>
      Abs(w1.thickness - w2.thickness) <= 1.0 && Abs(w1.height - w2.height) <= 1.0 &&
      exists k :: 0 <= k < 4 && Joins(m, w1, w2, ConnectionOrder[k], tol.point)
  {
    AnglesApartByHalfTurn(0.1);
    CanMergeFirstJoin(m, w1, w2, tol, AsWritten);
    CanMergeFirstJoin(m, w1, w2, tol, Undirected);
  }

  /** The angles 0.1 and 0.1 - pi are not close as written, and close under the direction-free test. */
  lemma AnglesApartByHalfTurn(a: real)
    requires a == 0.1
    ensures !AnglesClose(a, a - Pi, DefaultAngleTolerance)
    ensures AnglesCloseUndirected(a, a - Pi, DefaultAngleTolerance)
  {
    assert Abs(a - Pi) == Pi - 0.1;
    FModInRange(0.1, Pi);
    FModInRange(Pi - 0.1, Pi);
    HalfTurnApartClose(a, a - Pi, DefaultAngleTolerance);
  }

  /** How many original segments a wall stands for: `metadata.get("segment_count", 1)`, a flag counting as 0 or 1. */
  function SegmentCount(w: Wall): int
  {
    if "segment_count" !in w.metadata then 1
    else match w.metadata["segment_count"]
      case MInt(n) => n
      case MFlag(b) => if b then 1 else 0
  }

  /**
   * `_merge_two_walls`: the merged centerline runs between the endpoints the connection type
   * names, on w1's layer; section, height and source layer come from w1, the confidence is the
   * mean, and the segment counts add. An unknown connection type is the `ValueError`.
   */
  function MergeTwoWalls(w1: Wall, w2: Wall, connection: string): (r: Result<Wall>)
    ensures r.Success? <==> connection in ConnectionOrder
    ensures r.Success? ==>
      && r.value.thickness == w1.thickness && r.value.height == w1.height
      && r.value.sourceLayer == w1.sourceLayer && r.value.centerline.layer == w1.centerline.layer
      && !r.value.isExterior && !r.value.isStructural
      && r.value.confidence == (w1.confidence + w2.confidence) / 2.0
      && SegmentCount(r.value) == SegmentCount(w1) + SegmentCount(w2)
      && (forall k :: k in w1.metadata && k != "segment_count" ==> k in r.value.metadata && r.value.metadata[k] == w1.metadata[k])
  {
    var s1, e1, s2, e2 := w1.centerline.start, w1.centerline.end, w2.centerline.start, w2.centerline.end;
    var ends :=
      if connection == EndToStart then Some((s1, e2))
      else if connection == StartToEnd then Some((s2, e1))
      else if connection == EndToEnd then Some((s1, s2))
      else if connection == StartToStart then Some((e1, e2))
      else None;
    if ends.None? then Failure("Invalid connection type: " + connection)
    else
      var segments := SegmentCount(w1) + SegmentCount(w2);
      Success(Wall(Line2D(ends.value.0, ends.value.1, w1.centerline.layer), w1.thickness, w1.height, false, false,
                   (w1.confidence + w2.confidence) / 2.0, w1.sourceLayer,
                   w1.metadata["segment_count" := MInt(segments)]))
  }

  /**
   * A merged wall spans the two far ends of the connection, from w1's far end to w2's except
   * for start-to-end, which starts at w2's; its confidence lies between its parents'.
   */
  lemma MergedSpansFarEnds(w1: Wall, w2: Wall, connection: string)
    requires connection in ConnectionOrder
    ensures var w, e := MergeTwoWalls(w1, w2, connection).value, Ends(w1, w2, connection).value;
      && (connection != StartToEnd ==> w.centerline.start == e.2 && w.centerline.end == e.3)
      && (connection == StartToEnd ==> w.centerline.start == e.3 && w.centerline.end == e.2)
      && Min(w1.confidence, w2.confidence) <= w.confidence <= Max(w1.confidence, w2.confidence)
      && (ValidConfidence(w1.confidence) && ValidConfidence(w2.confidence) ==> ValidConfidence(w.confidence))
  {
  }

  // ---------------------------------------------------------------- one merge pass

  /**
   * The pairwise test a merge pass applies: `_can_merge_walls` with the pass's tolerances. The
   * pass is stated for any test that names a connection type whenever it accepts.
   */
  type Decision = (Wall, Wall) -> (bool, string)

  ghost predicate ValidDecision(decide: Decision)
  {
    forall w1, w2 :: decide(w1, w2).0 ==> decide(w1, w2).1 in ConnectionOrder
  }

  /** `_can_merge_walls` as written with fixed tolerances, the test `merge_wall_segments` uses. */
  function Decide(m: Math, tol: Tolerances): (r: Decision)
    requires ValidMath(m)
    ensures ValidDecision(r)
    ensures forall w1, w2 :: r(w1, w2) == CanMergeWalls(m, w1, w2, tol, AsWritten)
  {
    (w1: Wall, w2: Wall) => CanMergeWalls(m, w1, w2, tol, AsWritten)
  }

  /** The corrected test: `_can_merge_walls` with the direction-free angle comparison. */
  function DecideUndirected(m: Math, tol: Tolerances): (r: Decision)
    requires ValidMath(m)
    ensures ValidDecision(r)
    ensures forall w1, w2 :: r(w1, w2) == CanMergeWalls(m, w1, w2, tol, Undirected)
  {
    (w1: Wall, w2: Wall) => CanMergeWalls(m, w1, w2, tol, Undirected)
  }

  /** The wall two mergeable walls become. */
  function MergePair(decide: Decision, w1: Wall, w2: Wall): Wall
    requires ValidDecision(decide) && decide(w1, w2).0
  {
    MergeTwoWalls(w1, w2, decide(w1, w2).1).value
  }

  /** The inner loop of a pass: the first unused `j >= from` whose wall merges with wall `i`. */
  function Partner(decide: Decision, ws: seq<Wall>, i: nat, from: nat, used: set<nat>): (r: Option<nat>)
    requires ValidDecision(decide) && i < |ws| && from <= |ws|
    ensures r.Some? ==> from <= r.value < |ws| && r.value !in used && decide(ws[i], ws[r.value]).0
    decreases |ws| - from
  {
    if from == |ws| then None
    else if from !in used && decide(ws[i], ws[from]).0 then Some(from)
    else Partner(decide, ws, i, from + 1, used)
  }

  /** The partner found is the first unused mergeable index, and none is found only when there is none. */
  lemma {:induction false} PartnerFirst(decide: Decision, ws: seq<Wall>, i: nat, from: nat, used: set<nat>)
    requires ValidDecision(decide) && i < |ws| && from <= |ws|
    ensures var r := Partner(decide, ws, i, from, used);
      && (r.Some? ==> forall k :: from <= k < r.value && k !in used ==> !decide(ws[i], ws[k]).0)
      && (r.None? ==> forall k :: from <= k < |ws| && k !in used ==> !decide(ws[i], ws[k]).0)
    decreases |ws| - from
  {
    if from < |ws| && !(from !in used && decide(ws[i], ws[from]).0) {
      PartnerFirst(decide, ws, i, from + 1, used);
    }
  }

  /**
   * The outer loop of a pass from index `i` with the indices in `used` consumed: the walls it
   * appends and the number of merges. A wall either merges with its first partner, consuming
   * both, or is kept as it is.
   */
  function PassFrom(decide: Decision, ws: seq<Wall>, i: nat, used: set<nat>): (seq<Wall>, nat)
    requires ValidDecision(decide) && i <= |ws|
    decreases |ws| - i
  {
    if i == |ws| then ([], 0)
    else if i in used then PassFrom(decide, ws, i + 1, used)
    else match Partner(decide, ws, i, i + 1, used)
      case Some(j) =>
        var rest := PassFrom(decide, ws, i + 1, used + {i, j});
        ([MergePair(decide, ws[i], ws[j])] + rest.0, rest.1 + 1)
      case None =>
        var rest := PassFrom(decide, ws, i + 1, used + {i});
        ([ws[i]] + rest.0, rest.1)
  }

  /** One pass of the `while` loop of `merge_wall_segments`: the new list and `merged_count`. */
  function Pass(decide: Decision, ws: seq<Wall>): (seq<Wall>, nat)
    requires ValidDecision(decide)
  {
    PassFrom(decide, ws, 0, {})
  }

  /** The sum of `f` over the indices from `i` on that are not in `used`. */
  function WeightFrom(ws: seq<Wall>, i: nat, used: set<nat>, f: Wall -> int): int
    decreases |ws| - i
  {
    if i >= |ws| then 0
    else (if i in used then 0 else f(ws[i])) + WeightFrom(ws, i + 1, used, f)
  }

  lemma {:induction false} WeightFromAddBelow(ws: seq<Wall>, i: nat, used: set<nat>, k: nat, f: Wall -> int)
    requires k < i
    ensures WeightFrom(ws, i, used + {k}, f) == WeightFrom(ws, i, used, f)
    decreases |ws| - i
  {
    if i < |ws| {
      WeightFromAddBelow(ws, i + 1, used, k, f);
    }
  }

  lemma {:induction false} WeightFromAddUnused(ws: seq<Wall>, i: nat, used: set<nat>, j: nat, f: Wall -> int)
    requires i <= j < |ws| && j !in used
    ensures WeightFrom(ws, i, used + {j}, f) == WeightFrom(ws, i, used, f) - f(ws[j])
    decreases |ws| - i
  {
    if i < j {
      WeightFromAddUnused(ws, i + 1, used, j, f);
    } else {
      WeightFromAddBelow(ws, i + 1, used, j, f);
    }
  }

  function One(w: Wall): int
  {
    1
  }

  /** Each pass keeps or merges every unconsumed wall: walls out plus merges equals walls in. */
  lemma {:induction false} PassFromLength(decide: Decision, ws: seq<Wall>, i: nat, used: set<nat>)
    requires ValidDecision(decide) && i <= |ws|
    ensures |PassFrom(decide, ws, i, used).0| + PassFrom(decide, ws, i, used).1 == WeightFrom(ws, i, used, One)
    decreases |ws| - i
  {
    if i < |ws| && i !in used {
      match Partner(decide, ws, i, i + 1, used)
      case Some(j) =>
        PassFromLength(decide, ws, i + 1, used + {i, j});
        assert used + {i, j} == used + {j} + {i};
        WeightFromAddBelow(ws, i + 1, used + {j}, i, One);
        WeightFromAddUnused(ws, i + 1, used, j, One);
      case None =>
        PassFromLength(decide, ws, i + 1, used + {i});
        WeightFromAddBelow(ws, i + 1, used, i, One);
    } else if i < |ws| {
      PassFromLength(decide, ws, i + 1, used);
    }
  }

  /** The total `segment_count` of a list of walls. */
  function TotalSegments(ws: seq<Wall>): int
  {
    if ws == [] then 0 else SegmentCount(ws[0]) + TotalSegments(ws[1..])
  }

  /** Each pass carries every unconsumed wall's segment count into its output. */
  lemma {:induction false} PassFromSegments(decide: Decision, ws: seq<Wall>, i: nat, used: set<nat>)
    requires ValidDecision(decide) && i <= |ws|
    ensures TotalSegments(PassFrom(decide, ws, i, used).0) == WeightFrom(ws, i, used, SegmentCount)
    decreases |ws| - i
  {
    if i < |ws| && i !in used {
      var out := PassFrom(decide, ws, i, used).0;
      match Partner(decide, ws, i, i + 1, used)
      case Some(j) =>
        PassFromSegments(decide, ws, i + 1, used + {i, j});
        assert used + {i, j} == used + {j} + {i};
        WeightFromAddBelow(ws, i + 1, used + {j}, i, SegmentCount);
        WeightFromAddUnused(ws, i + 1, used, j, SegmentCount);
        assert out[1..] == PassFrom(decide, ws, i + 1, used + {i, j}).0;
      case None =>
        PassFromSegments(decide, ws, i + 1, used + {i});
        WeightFromAddBelow(ws, i + 1, used, i, SegmentCount);
        assert out[1..] == PassFrom(decide, ws, i + 1, used + {i}).0;
    } else if i < |ws| {
      PassFromSegments(decide, ws, i + 1, used);
    }
  }

  lemma {:induction false} WeightFromAll(ws: seq<Wall>, i: nat)
    requires i <= |ws|
    ensures WeightFrom(ws, i, {}, SegmentCount) == TotalSegments(ws[i..])
    ensures WeightFrom(ws, i, {}, One) == |ws| - i
    decreases |ws| - i
  {
    if i < |ws| {
      WeightFromAll(ws, i + 1);
      assert ws[i..][1..] == ws[i + 1..];
    }
  }

  /** A pass without merges returns its input unchanged. */
  lemma {:induction false} PassFromNoMerge(decide: Decision, ws: seq<Wall>, i: nat, used: set<nat>)
    requires ValidDecision(decide) && i <= |ws| && forall k :: k in used ==> k < i
    requires PassFrom(decide, ws, i, used).1 == 0
    ensures PassFrom(decide, ws, i, used).0 == ws[i..]
    decreases |ws| - i
  {
    if i < |ws| {
      assert Partner(decide, ws, i, i + 1, used).None?;
      PassFromNoMerge(decide, ws, i + 1, used + {i});
      assert ws[i..] == [ws[i]] + ws[i + 1..];
    }
  }

  /**
   * A pass outputs n - merged_count walls, keeps the total segment count, and changes
   * nothing when it merges nothing.
   */
  lemma PassFacts(decide: Decision, ws: seq<Wall>)
    requires ValidDecision(decide)
    ensures |Pass(decide, ws).0| == |ws| - Pass(decide, ws).1
    ensures TotalSegments(Pass(decide, ws).0) == TotalSegments(ws)
    ensures Pass(decide, ws).1 == 0 ==> Pass(decide, ws).0 == ws
  {
    PassFromLength(decide, ws, 0, {});
    PassFromSegments(decide, ws, 0, {});
    WeightFromAll(ws, 0);
    assert ws[0..] == ws;
    if Pass(decide, ws).1 == 0 {
      PassFromNoMerge(decide, ws, 0, {});
    }
  }

  /** The first loop of a pass: `for j, w2 in enumerate(merged_walls[i+1:], start=i+1)` up to the first partner. */
  method FindPartner(decide: Decision, ws: seq<Wall>, i: nat, used: set<nat>) returns (r: Option<nat>)
    requires ValidDecision(decide) && i < |ws|
    ensures r == Partner(decide, ws, i, i + 1, used)
  {
    var j := i + 1;
    while j < |ws|
      invariant i + 1 <= j <= |ws|
      invariant Partner(decide, ws, i, j, used) == Partner(decide, ws, i, i + 1, used)
    {
      if j !in used {
        var decision := decide(ws[i], ws[j]);
        if decision.0 {
          return Some(j);
        }
      }
      j := j + 1;
    }
    return None;
  }

  /** One pass of `merge_wall_segments`, with its `merged_indices` set and `merged_count` counter. */
  method MergePass(decide: Decision, ws: seq<Wall>) returns (newWalls: seq<Wall>, mergedCount: nat)
    requires ValidDecision(decide)
    ensures (newWalls, mergedCount) == Pass(decide, ws)
  {
    newWalls, mergedCount := [], 0;
    var mergedIndices: set<nat> := {};
    var i := 0;
    ghost var total := Pass(decide, ws);
    while i < |ws|
      invariant 0 <= i <= |ws|
      invariant newWalls + PassFrom(decide, ws, i, mergedIndices).0 == total.0
      invariant mergedCount + PassFrom(decide, ws, i, mergedIndices).1 == total.1
    {
      ghost var newWalls0, mergedCount0, mergedIndices0 := newWalls, mergedCount, mergedIndices;
      ghost var found: Option<nat> := None;
      if i !in mergedIndices {
        var partner := FindPartner(decide, ws, i, mergedIndices);
        found := partner;
        if partner.Some? {
          var j := partner.value;
          var (_, connection) := decide(ws[i], ws[j]);
          var merged := MergeTwoWalls(ws[i], ws[j], connection).value;
          newWalls := newWalls + [merged];
          mergedIndices := mergedIndices + {i, j};
          mergedCount := mergedCount + 1;
        } else {
          newWalls := newWalls + [ws[i]];
          mergedIndices := mergedIndices + {i};
        }
      }
      PassStep(decide, ws, i, mergedIndices0, newWalls0, mergedCount0, found, mergedIndices, newWalls, mergedCount);
      i := i + 1;
    }
    assert newWalls + [] == newWalls;
  }

  /** One step of the pass loop: the output so far plus what the rest of the pass adds stays the same. */
  lemma PassStep(decide: Decision, ws: seq<Wall>, i: nat, used: set<nat>, out: seq<Wall>, count: nat,
                 found: Option<nat>, used': set<nat>, out': seq<Wall>, count': nat)
    requires ValidDecision(decide) && i < |ws|
    requires i in used ==> used' == used && out' == out && count' == count
    requires i !in used ==> found == Partner(decide, ws, i, i + 1, used)
    requires i !in used && found.Some? ==>
      found.value < |ws| && decide(ws[i], ws[found.value]).0 &&
      used' == used + {i, found.value} && out' == out + [MergePair(decide, ws[i], ws[found.value])] && count' == count + 1
    requires i !in used && found.None? ==> used' == used + {i} && out' == out + [ws[i]] && count' == count
    ensures out' + PassFrom(decide, ws, i + 1, used').0 == out + PassFrom(decide, ws, i, used).0
    ensures count' + PassFrom(decide, ws, i + 1, used').1 == count + PassFrom(decide, ws, i, used).1
  {
    PassFromUnfold(decide, ws, i, used);
    if i !in used {
      var rest := PassFrom(decide, ws, i + 1, used').0;
      ConcatAssoc(out, [out'[|out|]], rest);
      assert out' == out + [out'[|out|]];
    }
  }

  lemma PassFromUnfold(decide: Decision, ws: seq<Wall>, i: nat, used: set<nat>)
    requires ValidDecision(decide) && i < |ws|
    ensures PassFrom(decide, ws, i, used) ==
      if i in used then PassFrom(decide, ws, i + 1, used)
      else match Partner(decide, ws, i, i + 1, used)
        case Some(j) =>
          var rest := PassFrom(decide, ws, i + 1, used + {i, j});
          ([MergePair(decide, ws[i], ws[j])] + rest.0, rest.1 + 1)
        case None =>
          var rest := PassFrom(decide, ws, i + 1, used + {i});
          ([ws[i]] + rest.0, rest.1)
  {
  }

  // ---------------------------------------------------------------- repeated passes

  /** Passes until one merges nothing or `left` passes have run. */
  function MergeLoop(decide: Decision, ws: seq<Wall>, left: int): seq<Wall>
    requires ValidDecision(decide)
    decreases left
  {
    if left <= 0 then ws
    else
      var (next, count) := Pass(decide, ws);
      if count == 0 then ws else MergeLoop(decide, next, left - 1)
  }

  /**
   * Repeated passes keep the total segment count, never lengthen the list, and, given at
   * least as many passes as walls, end on a list no pass can merge further.
   */
  lemma {:induction false} MergeLoopFacts(decide: Decision, ws: seq<Wall>, left: int)
    requires ValidDecision(decide)
    ensures TotalSegments(MergeLoop(decide, ws, left)) == TotalSegments(ws)
    ensures |MergeLoop(decide, ws, left)| <= |ws|
    ensures left >= |ws| ==> Pass(decide, MergeLoop(decide, ws, left)).1 == 0
    decreases left
  {
    PassFacts(decide, ws);
    if left > 0 && Pass(decide, ws).1 != 0 {
      MergeLoopFacts(decide, Pass(decide, ws).0, left - 1);
    } else if left <= 0 && left >= |ws| {
      assert ws == [];
    }
  }

  /** `merge_wall_segments` as written: `[]` for no walls, otherwise repeated passes of `Decide` as `MergeLoop` describes. */
  method MergeWallSegments(m: Math, tol: Tolerances, walls: seq<Wall>, maxIterations: int) returns (r: seq<Wall>)
    requires ValidMath(m)
    ensures r == MergeLoop(Decide(m, tol), walls, maxIterations)
  {
    if walls == [] {
      MergeLoopEmpty(Decide(m, tol), maxIterations);
      return [];
    }
    r := MergeRounds(Decide(m, tol), walls, maxIterations);
  }

  /** The `while iteration < max_iterations` loop of `merge_wall_segments`, stopping at the first pass that merges nothing. */
  method MergeRounds(decide: Decision, walls: seq<Wall>, maxIterations: int) returns (r: seq<Wall>)
    requires ValidDecision(decide)
    ensures r == MergeLoop(decide, walls, maxIterations)
  {
    var mergedWalls := walls;
    var iteration := 0;
    while iteration < maxIterations
      invariant iteration <= maxIterations || iteration == 0
      invariant MergeLoop(decide, mergedWalls, maxIterations - iteration) == MergeLoop(decide, walls, maxIterations)
      decreases maxIterations - iteration
    {
      iteration := iteration + 1;
      var newWalls, mergedCount := MergePass(decide, mergedWalls);
      if mergedCount == 0 {
        break;
      }
      mergedWalls := newWalls;
    }
    return mergedWalls;
  }

  /**
   * On the two walls of a reversed diagonal, `merge_wall_segments` as written keeps both,
   * while the direction-free test merges them into one whenever their ends join.
   */
  lemma ReversedDiagonalPairKept(m: Math, w1: Wall, w2: Wall, tol: Tolerances, left: int)
    requires ValidMath(m) && tol.angle == DefaultAngleTolerance
    requires Angle(m, w1.centerline) == 0.1 && Angle(m, w2.centerline) == 0.1 - Pi
    ensures MergeLoop(Decide(m, tol), [w1, w2], left) == [w1, w2]
    ensures left >= 1 && CanMergeWalls(m, w1, w2, tol, Undirected).0 ==> |MergeLoop(DecideUndirected(m, tol), [w1, w2], left)| == 1
  {
    ReversedDiagonalWallsUnmerged(m, w1, w2, tol);
    PairKept(Decide(m, tol), w1, w2, left);
    if left >= 1 && CanMergeWalls(m, w1, w2, tol, Undirected).0 {
      PairMerged(DecideUndirected(m, tol), w1, w2, left);
    }
  }

  /** Two walls the test refuses are both kept. */
  lemma PairKept(decide: Decision, w1: Wall, w2: Wall, left: int)
    requires ValidDecision(decide) && !decide(w1, w2).0
    ensures MergeLoop(decide, [w1, w2], left) == [w1, w2]
  {
    var ws := [w1, w2];
    assert Partner(decide, ws, 0, 1, {}).None?;
    PassFromUnfold(decide, ws, 0, {});
    PassFromUnfold(decide, ws, 1, {0});
    assert Partner(decide, ws, 1, 2, {0}).None?;
    assert PassFrom(decide, ws, 2, {0, 1}) == ([], 0);
    assert Pass(decide, ws).1 == 0;
  }

  /** Two walls the test accepts become one wall. */
  lemma PairMerged(decide: Decision, w1: Wall, w2: Wall, left: int)
    requires ValidDecision(decide) && decide(w1, w2).0 && left >= 1
    ensures |MergeLoop(decide, [w1, w2], left)| == 1
  {
    var ws := [w1, w2];
    assert Partner(decide, ws, 0, 1, {}) == Some(1);
    PassFromUnfold(decide, ws, 0, {});
    PassFromUnfold(decide, ws, 1, {0, 1});
    assert PassFrom(decide, ws, 2, {0, 1}) == ([], 0);
    var next := Pass(decide, ws);
    assert next.1 == 1 && |next.0| == 1;
    SingletonLoop(decide, next.0, left - 1);
  }

  /** A single wall has no partner, so the passes leave it alone. */
  lemma SingletonLoop(decide: Decision, ws: seq<Wall>, left: int)
    requires ValidDecision(decide) && |ws| == 1
    ensures MergeLoop(decide, ws, left) == ws
  {
    assert Partner(decide, ws, 0, 1, {}).None?;
    PassFromUnfold(decide, ws, 0, {});
    assert PassFrom(decide, ws, 1, {0}) == ([], 0);
    assert Pass(decide, ws).1 == 0;
  }

  /** No walls in, no walls out. */
  lemma MergeLoopEmpty(decide: Decision, left: int)
    requires ValidDecision(decide)
    ensures MergeLoop(decide, [], left) == []
  {
    if left > 0 {
      PassFacts(decide, []);
    }
  }

  // ---------------------------------------------------------------- lines to walls

  /** The confidence `detect_walls` gives a wall: the threshold, plus 0.1 capped at 1 for lines over 1000 mm. */
  function LineWallConfidence(threshold: real, length: real): real
  {
    if length > 1000.0 then Min(1.0, threshold + 0.1) else threshold
  }

  /** A valid threshold yields a valid confidence, never below it, and raised exactly for long lines when below 1. */
  lemma LineWallConfidenceBounds(threshold: real, length: real)
    requires ValidConfidence(threshold)
    ensures ValidConfidence(LineWallConfidence(threshold, length))
    ensures threshold <= LineWallConfidence(threshold, length)
    ensures LineWallConfidence(threshold, length) > threshold <==> length > 1000.0 && threshold < 1.0
  {
  }

  /** The wall `detect_walls` builds from one line, with the default section and height and the line's layer. */
  function WallFromLine(m: Math, line: Line2D, thickness: real, height: real, threshold: real): Wall
    requires ValidMath(m)
  {
    Wall(line, thickness, height, false, false, LineWallConfidence(threshold, Length(m, line)), Some(line.layer), map[])
  }

  /** The walls `detect_walls` builds from the lines at least `minLength` long, one per line, in order. */
  function WallsFromLines(m: Math, lines: seq<Line2D>, minLength: real, thickness: real, height: real, threshold: real): (r: seq<Wall>)
    requires ValidMath(m)
    ensures |r| == |LongLines(m, minLength, lines)|
  {
    var kept := LongLines(m, minLength, lines);
    seq(|kept|, k requires 0 <= k < |kept| => WallFromLine(m, kept[k], thickness, height, threshold))
  }

  /** Every such wall lies on an input line of at least the minimum length, each counts as one segment, and its confidence is valid. */
  lemma WallsFromLinesFacts(m: Math, lines: seq<Line2D>, minLength: real, thickness: real, height: real, threshold: real)
    requires ValidMath(m) && ValidConfidence(threshold)
    ensures var ws := WallsFromLines(m, lines, minLength, thickness, height, threshold);
      && TotalSegments(ws) == |ws|
      && forall k :: 0 <= k < |ws| ==>
           ws[k].centerline in lines && Length(m, ws[k].centerline) >= minLength &&
           ValidConfidence(ws[k].confidence) && ws[k].confidence >= threshold &&
           ws[k].sourceLayer == Some(ws[k].centerline.layer)
  {
    var ws := WallsFromLines(m, lines, minLength, thickness, height, threshold);
    forall k | 0 <= k < |ws| ensures ValidConfidence(ws[k].confidence) && ws[k].confidence >= threshold {
      LineWallConfidenceBounds(threshold, Length(m, ws[k].centerline));
    }
    AllSingleSegments(ws);
  }

  lemma {:induction false} AllSingleSegments(ws: seq<Wall>)
    requires forall k :: 0 <= k < |ws| ==> ws[k].metadata == map[]
    ensures TotalSegments(ws) == |ws|
  {
    if ws != [] {
      AllSingleSegments(ws[1..]);
    }
  }
}
