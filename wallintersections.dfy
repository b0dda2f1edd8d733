/**
 * Wall intersection resolution: the junction type of a meeting point, the distance from a
 * point to a segment, the determinant test for two crossing segments, the collection of
 * candidate meeting points (endpoints, then crossings far from every earlier candidate),
 * their greedy grouping around seed points into averaged junctions, and the snapping and
 * half-thickness extension of wall endpoints at those junctions.
 */
module WallIntersections {
  import opened Numeric
  import opened Wrappers
  import opened Models

  // ---------------------------------------------------------------- junctions

  /** A `WallIntersection`: the point where walls meet and the indices of those walls. */
  datatype WallIntersection = WallIntersection(point: Point2D, wallIndices: seq<nat>)

  /** `WallIntersection.intersection_type`: named after how many walls meet. */
  function IntersectionType(x: WallIntersection): (r: string)
    ensures r == "L-corner" <==> |x.wallIndices| == 2
    ensures r == "T-junction" <==> |x.wallIndices| == 3
    ensures r == "X-crossing" <==> |x.wallIndices| >= 4
    ensures r == "endpoint" <==> |x.wallIndices| < 2
  {
    var count := |x.wallIndices|;
    if count == 2 then "L-corner"
    else if count == 3 then "T-junction"
    else if count >= 4 then "X-crossing"
    else "endpoint"
  }

  // ---------------------------------------------------------------- point to segment

  /** The squared length below which `_point_to_line_distance` treats a segment as a point (1e-10). */
  const DegenerateLengthSq: real := 0.0000000001

  /** The point at parameter `t` along the segment from `s` to `e`. */
  function At(s: Point2D, e: Point2D, t: real): Point2D
  {
    Point2D(s.x + t * (e.x - s.x), s.y + t * (e.y - s.y))
  }

  /** The dot product of `p - s` with the direction `e - s`. */
  function Projection(p: Point2D, s: Point2D, e: Point2D): real
  {
    (p.x - s.x) * (e.x - s.x) + (p.y - s.y) * (e.y - s.y)
  }

  /** The parameter of the projection of `p` onto the segment's line, clamped to [0, 1]. */
  function ClampedParameter(p: Point2D, s: Point2D, e: Point2D): (t: real)
    requires SqDist(e, s) >= DegenerateLengthSq
    ensures 0.0 <= t <= 1.0
  {
    Max(0.0, Min(1.0, Projection(p, s, e) / SqDist(e, s)))
  }

  /** `_point_to_line_distance`: the distance from `p` to the nearest point of the segment. */
  function PointToLineDistance(m: Math, p: Point2D, s: Point2D, e: Point2D): (r: real)
    requires ValidMath(m)
    ensures r >= 0.0
    ensures SqDist(e, s) < DegenerateLengthSq ==> r == DistanceTo(m, p, s)
  {
    if SqDist(e, s) < DegenerateLengthSq then DistanceTo(m, p, s)
    else DistanceTo(m, p, At(s, e, ClampedParameter(p, s, e)))
  }

  /** The clamped parameter minimises the quadratic over [0, 1]. */
  lemma ClampedMinimises(k: real, len: real, t: real, tc: real)
    requires len > 0.0 && 0.0 <= t <= 1.0 && tc == Max(0.0, Min(1.0, k / len))
    ensures -2.0 * tc * k + tc * tc * len <= -2.0 * t * k + t * t * len
  {
    var star := k / len;
    assert star * len == k;
    var diff := (-2.0 * t * k + t * t * len) - (-2.0 * tc * k + tc * tc * len);
    assert diff == (t - tc) * (len * (t + tc) - 2.0 * k);
    if star < 0.0 {
      MulLt(star, 0.0, len);
      MulLe(0.0, t, len);
      MulSigns(t, len * t - 2.0 * k);
    } else if star > 1.0 {
      MulLt(1.0, star, len);
      MulLe(t, 1.0, len);
      MulSigns(1.0 - t, 2.0 * k - len * (t + 1.0));
    } else {
      assert tc == star;
      assert len * (t + tc) - 2.0 * k == len * (t - tc);
      MulSigns(t - tc, t - tc);
      MulSigns((t - tc) * (t - tc), len);
    }
  }

  /**
   * A segment that is not a point: the distance is no larger than the distance to any point
   * of the segment, in particular to either endpoint.
   */
  lemma PointToLineDistanceMinimal(m: Math, p: Point2D, s: Point2D, e: Point2D, t: real)
    requires ValidMath(m) && SqDist(e, s) >= DegenerateLengthSq && 0.0 <= t <= 1.0
    ensures PointToLineDistance(m, p, s, e) <= DistanceTo(m, p, At(s, e, t))
    ensures PointToLineDistance(m, p, s, e) <= DistanceTo(m, p, s)
    ensures PointToLineDistance(m, p, s, e) <= DistanceTo(m, p, e)
  {
    var tc, k, len := ClampedParameter(p, s, e), Projection(p, s, e), SqDist(e, s);
    var wx, wy, dx, dy := p.x - s.x, p.y - s.y, e.x - s.x, e.y - s.y;
    OffsetsOf(p, s, e, k, len, wx, wy, dx, dy);
    ClampedNearest(p, s, e, t, tc, k, len, wx, wy, dx, dy);
    ClampedNearest(p, s, e, 0.0, tc, k, len, wx, wy, dx, dy);
    ClampedNearest(p, s, e, 1.0, tc, k, len, wx, wy, dx, dy);
    assert At(s, e, 0.0) == s && At(s, e, 1.0) == e;
    SqrtMonotone(m, SqDist(p, At(s, e, tc)), SqDist(p, At(s, e, t)));
    SqrtMonotone(m, SqDist(p, At(s, e, tc)), SqDist(p, s));
    SqrtMonotone(m, SqDist(p, At(s, e, tc)), SqDist(p, e));
  }

  /** The point at the clamped parameter is at least as close to `p` as any point of the segment. */
  lemma ClampedNearest(p: Point2D, s: Point2D, e: Point2D, u: real, tc: real, k: real, len: real,
                        wx: real, wy: real, dx: real, dy: real)
    requires wx == p.x - s.x && wy == p.y - s.y && dx == e.x - s.x && dy == e.y - s.y
    requires k == wx * dx + wy * dy && len == dx * dx + dy * dy
    requires len >= DegenerateLengthSq && 0.0 <= u <= 1.0 && tc == Max(0.0, Min(1.0, k / len))
    ensures SqDist(p, At(s, e, tc)) <= SqDist(p, At(s, e, u))
  {
    OffsetNearest(wx, wy, dx, dy, u, tc, k, len);
    SqDistAt(p, s, e, tc, wx, wy, dx, dy);
    SqDistAt(p, s, e, u, wx, wy, dx, dy);
  }

  /** The projection and the squared length in offsets from the segment's start. */
  lemma OffsetsOf(p: Point2D, s: Point2D, e: Point2D, k: real, len: real, wx: real, wy: real, dx: real, dy: real)
    requires wx == p.x - s.x && wy == p.y - s.y && dx == e.x - s.x && dy == e.y - s.y
    requires k == Projection(p, s, e) && len == SqDist(e, s)
    ensures k == wx * dx + wy * dy && len == dx * dx + dy * dy
  {
  }

  /** The squared distance to the point at `t`, in offsets from the segment's start. */
  lemma SqDistAt(p: Point2D, s: Point2D, e: Point2D, t: real, wx: real, wy: real, dx: real, dy: real)
    requires wx == p.x - s.x && wy == p.y - s.y && dx == e.x - s.x && dy == e.y - s.y
    ensures SqDist(p, At(s, e, t)) == (wx - t * dx) * (wx - t * dx) + (wy - t * dy) * (wy - t * dy)
  {
    var c := At(s, e, t);
    assert p.x - c.x == wx - t * dx;
    assert p.y - c.y == wy - t * dy;
  }

  /** The segment problem in offsets from its start: `w` to the point, `d` along the segment. */
  lemma OffsetNearest(wx: real, wy: real, dx: real, dy: real, u: real, tc: real, k: real, len: real)
    requires k == wx * dx + wy * dy && len == dx * dx + dy * dy
    requires len >= DegenerateLengthSq && 0.0 <= u <= 1.0 && tc == Max(0.0, Min(1.0, k / len))
    ensures (wx - tc * dx) * (wx - tc * dx) + (wy - tc * dy) * (wy - tc * dy)
         <= (wx - u * dx) * (wx - u * dx) + (wy - u * dy) * (wy - u * dy)
  {
    ClampedMinimises(k, len, u, tc);
    OffsetQuadratic(wx, wy, dx, dy, tc);
    OffsetQuadratic(wx, wy, dx, dy, u);
  }

  /** The squared distance from `w` to the point at `t` along `d`, expanded in `t`. */
  lemma OffsetQuadratic(wx: real, wy: real, dx: real, dy: real, t: real)
    ensures (wx - t * dx) * (wx - t * dx) + (wy - t * dy) * (wy - t * dy)
      == (wx * wx + wy * wy) - 2.0 * t * (wx * dx + wy * dy) + t * t * (dx * dx + dy * dy)
  {
    assert (wx - t * dx) * (wx - t * dx) == wx * wx - 2.0 * t * (wx * dx) + t * t * (dx * dx);
    assert (wy - t * dy) * (wy - t * dy) == wy * wy - 2.0 * t * (wy * dy) + t * t * (dy * dy);
  }

  // ---------------------------------------------------------------- segment crossing

  /** The determinant below which `_lines_intersect` calls two lines parallel (1e-10). */
  const ParallelDenominator: real := 0.0000000001

  /** The determinant of the two direction vectors, as `_lines_intersect` computes it. */
  function Denominator(s1: Point2D, e1: Point2D, s2: Point2D, e2: Point2D): real
  {
    (s1.x - e1.x) * (s2.y - e2.y) - (s1.y - e1.y) * (s2.x - e2.x)
  }

  /** The numerators of the parameters along the first and along the second segment. */
  function NumeratorT(s1: Point2D, e1: Point2D, s2: Point2D, e2: Point2D): real
  {
    (s1.x - s2.x) * (s2.y - e2.y) - (s1.y - s2.y) * (s2.x - e2.x)
  }

  function NumeratorU(s1: Point2D, e1: Point2D, s2: Point2D, e2: Point2D): real
  {
    -((s1.x - e1.x) * (s1.y - s2.y) - (s1.y - e1.y) * (s1.x - s2.x))
  }

  /** Two lines that are not parallel both have positive length, so the longer one does. */
  lemma LongerPositive(m: Math, s1: Point2D, e1: Point2D, s2: Point2D, e2: Point2D)
    requires ValidMath(m) && Denominator(s1, e1, s2, e2) != 0.0
    ensures Max(DistanceTo(m, e1, s1), DistanceTo(m, e2, s2)) > 0.0
  {
    var a, c := s1.x - e1.x, s1.y - e1.y;
    assert a != 0.0 || c != 0.0;
    MulSigns(a, a);
    MulSigns(c, c);
    assert SqDist(e1, s1) == a * a + c * c;
    SqrtZero(m, SqDist(e1, s1));
  }

  /** The `tolerance_param` of `_lines_intersect`: the tolerance relative to the longer segment. */
  function ParamTolerance(m: Math, s1: Point2D, e1: Point2D, s2: Point2D, e2: Point2D, tol: real): real
    requires ValidMath(m) && Denominator(s1, e1, s2, e2) != 0.0
  {
    LongerPositive(m, s1, e1, s2, e2);
    tol / Max(DistanceTo(m, e1, s1), DistanceTo(m, e2, s2))
  }

  /**
   * `_lines_intersect`: `None` for (nearly) parallel lines; otherwise the crossing of the two
   * lines, when its parameters along both segments lie within the widened range
   * [-tp, 1 + tp].
   */
  function LinesIntersect(m: Math, s1: Point2D, e1: Point2D, s2: Point2D, e2: Point2D, tol: real): (r: Option<Point2D>)
    requires ValidMath(m)
    ensures Abs(Denominator(s1, e1, s2, e2)) < ParallelDenominator ==> r.None?
  {
    var denom := Denominator(s1, e1, s2, e2);
    if Abs(denom) < ParallelDenominator then None
    else
      var t := NumeratorT(s1, e1, s2, e2) / denom;
      var u := NumeratorU(s1, e1, s2, e2) / denom;
      var tp := ParamTolerance(m, s1, e1, s2, e2, tol);
      if -tp <= t <= 1.0 + tp && -tp <= u <= 1.0 + tp then Some(At(s1, e1, t)) else None
  }

  /** Cramer's rule: the point at parameter t on the first line is the point at u on the second. */
  lemma CrossingOnBoth(s1: Point2D, e1: Point2D, s2: Point2D, e2: Point2D)
    requires Denominator(s1, e1, s2, e2) != 0.0
    ensures var d := Denominator(s1, e1, s2, e2);
      At(s1, e1, NumeratorT(s1, e1, s2, e2) / d) == At(s2, e2, NumeratorU(s1, e1, s2, e2) / d)
  {
    var d := Denominator(s1, e1, s2, e2);
    var bigT, bigU := NumeratorT(s1, e1, s2, e2), NumeratorU(s1, e1, s2, e2);
    var t, u := bigT / d, bigU / d;
    assert t * d == bigT && u * d == bigU;
    var a, b, c, dd := s1.x - e1.x, s2.y - e2.y, s1.y - e1.y, s2.x - e2.x;
    var ex, ey := s1.x - s2.x, s1.y - s2.y;
    assert (s1.x - t * a) * d == s1.x * d - bigT * a;
    assert (s2.x - u * dd) * d == s2.x * d - bigU * dd;
    assert ex * d - bigT * a + bigU * dd == 0.0;
    MulCancel(s1.x - t * a, s2.x - u * dd, d);
    assert (s1.y - t * c) * d == s1.y * d - bigT * c;
    assert (s2.y - u * b) * d == s2.y * d - bigU * b;
    assert ey * d - bigT * c + bigU * b == 0.0;
    MulCancel(s1.y - t * c, s2.y - u * b, d);
  }

  /**
   * A returned point lies on both segments widened by tp at each end: it is the point at
   * some t on the first and at some u on the second, both in [-tp, 1 + tp].
   */
  lemma LinesIntersectOnBoth(m: Math, s1: Point2D, e1: Point2D, s2: Point2D, e2: Point2D, tol: real, p: Point2D)
    requires ValidMath(m) && LinesIntersect(m, s1, e1, s2, e2, tol) == Some(p)
    ensures Denominator(s1, e1, s2, e2) != 0.0
    ensures var d, tp := Denominator(s1, e1, s2, e2), ParamTolerance(m, s1, e1, s2, e2, tol);
      var t, u := NumeratorT(s1, e1, s2, e2) / d, NumeratorU(s1, e1, s2, e2) / d;
      && p == At(s1, e1, t) && p == At(s2, e2, u)
      && -tp <= t <= 1.0 + tp && -tp <= u <= 1.0 + tp
  {
    CrossingOnBoth(s1, e1, s2, e2);
  }

  /**
   * Conversely, two segments that are not parallel and meet at a point inside both are
   * reported crossing at that point, whatever the non-negative tolerance.
   */
  lemma LinesIntersectFinds(m: Math, s1: Point2D, e1: Point2D, s2: Point2D, e2: Point2D, tol: real, t0: real, u0: real)
    requires ValidMath(m) && tol >= 0.0 && Abs(Denominator(s1, e1, s2, e2)) >= ParallelDenominator
    requires 0.0 <= t0 <= 1.0 && 0.0 <= u0 <= 1.0 && At(s1, e1, t0) == At(s2, e2, u0)
    ensures LinesIntersect(m, s1, e1, s2, e2, tol) == Some(At(s1, e1, t0))
  {
    var d := Denominator(s1, e1, s2, e2);
    NumeratorsAtMeeting(s1, e1, s2, e2, t0, u0);
    DivMul(NumeratorT(s1, e1, s2, e2), t0, d);
    DivMul(NumeratorU(s1, e1, s2, e2), u0, d);
    ParamToleranceNonNeg(m, s1, e1, s2, e2, tol);

  }

  /** At a common point of the two lines the numerators are its parameters times the determinant. */
  lemma NumeratorsAtMeeting(s1: Point2D, e1: Point2D, s2: Point2D, e2: Point2D, t0: real, u0: real)
    requires At(s1, e1, t0) == At(s2, e2, u0)
    ensures NumeratorT(s1, e1, s2, e2) == t0 * Denominator(s1, e1, s2, e2)
    ensures NumeratorU(s1, e1, s2, e2) == u0 * Denominator(s1, e1, s2, e2)
  {
    var a, b, c, dd := s1.x - e1.x, s2.y - e2.y, s1.y - e1.y, s2.x - e2.x;
    var ex, ey := s1.x - s2.x, s1.y - s2.y;
    assert ex == t0 * a - u0 * dd && ey == t0 * c - u0 * b;
    assert NumeratorT(s1, e1, s2, e2) == (t0 * a - u0 * dd) * b - (t0 * c - u0 * b) * dd;
    assert NumeratorU(s1, e1, s2, e2) == c * (t0 * a - u0 * dd) - a * (t0 * c - u0 * b);
  }

  lemma ParamToleranceNonNeg(m: Math, s1: Point2D, e1: Point2D, s2: Point2D, e2: Point2D, tol: real)
    requires ValidMath(m) && tol >= 0.0 && Denominator(s1, e1, s2, e2) != 0.0
    ensures ParamTolerance(m, s1, e1, s2, e2, tol) >= 0.0
  {
    LongerPositive(m, s1, e1, s2, e2);
    var longer := Max(DistanceTo(m, e1, s1), DistanceTo(m, e2, s2));
    var tp := ParamTolerance(m, s1, e1, s2, e2, tol);
    assert tp * longer == tol;
    if tp < 0.0 {
      MulLt(tp, 0.0, longer);
    }
  }

  // ---------------------------------------------------------------- candidates

  /** `detect_wall_intersections`' default tolerances (mm). */
  const DefaultEndpointTolerance: real := 50.0
  const DefaultIntersectionTolerance: real := 50.0

  /** How a candidate point arose: a wall's start, its end, or the crossing of two walls. */
  datatype CandidateKind = AtStart | AtEnd | Crossing

  /** An entry of `intersection_candidates`: a point, the index of its wall, and how it arose. */
  datatype Candidate = Candidate(point: Point2D, wall: nat, kind: CandidateKind)

  /** Entry `k` of the endpoint candidates: the start of wall `k / 2` for even `k`, its end for odd `k`. */
  function EndpointCandidate(ws: seq<Wall>, k: nat): Candidate
    requires k < 2 * |ws|
  {
    var line := ws[k / 2].centerline;
    if k % 2 == 0 then Candidate(line.start, k / 2, AtStart) else Candidate(line.end, k / 2, AtEnd)
  }

  /** The first stage of the candidate list: both endpoints of every wall, in wall order. */
  function EndpointCandidates(ws: seq<Wall>): (r: seq<Candidate>)
    ensures |r| == 2 * |ws|
    ensures forall i :: 0 <= i < |ws| ==>
      r[2 * i] == Candidate(ws[i].centerline.start, i, AtStart) &&
      r[2 * i + 1] == Candidate(ws[i].centerline.end, i, AtEnd)
  {
    seq(2 * |ws|, k requires 0 <= k < 2 * |ws| => EndpointCandidate(ws, k))
  }

  /** The first loop of `detect_wall_intersections`: append each wall's start and end. */
  method CollectEndpoints(ws: seq<Wall>) returns (cands: seq<Candidate>)
    ensures cands == EndpointCandidates(ws)
  {
    cands := [];
    for i := 0 to |ws|
      invariant cands == EndpointCandidates(ws)[..2 * i]
    {
      var line := ws[i].centerline;
      cands := cands + [Candidate(line.start, i, AtStart), Candidate(line.end, i, AtEnd)];
      assert cands == EndpointCandidates(ws)[..2 * (i + 1)];
    }
  }

  /** Some existing candidate lies closer than `tol` to `p`. */
  predicate NearAny(m: Math, cands: seq<Candidate>, p: Point2D, tol: real)
    requires ValidMath(m)
  {
    exists k :: 0 <= k < |cands| && DistanceTo(m, cands[k].point, p) < tol
  }

  /** The `is_endpoint` loop: scans the candidates and stops at the first one close to `p`. */
  method IsNearCandidate(m: Math, cands: seq<Candidate>, p: Point2D, tol: real) returns (near: bool)
    requires ValidMath(m)
    ensures near == NearAny(m, cands, p, tol)
  {
    near := false;
    var k := 0;
    while k < |cands|
      invariant 0 <= k <= |cands|
      invariant forall q :: 0 <= q < k ==> DistanceTo(m, cands[q].point, p) >= tol
    {
      if DistanceTo(m, cands[k].point, p) < tol {
        near := true;
        break;
      }
      k := k + 1;
    }
  }

  /** All candidates name a wall below `n`. */
  ghost predicate WallsBelow(cands: seq<Candidate>, n: nat)
  {
    forall k :: 0 <= k < |cands| ==> cands[k].wall < n
  }

  /**
   * The crossing test the pair loops apply to walls `i` and `j`. The loops are stated for any
   * such test; `Finder` is the one `detect_wall_intersections` uses.
   */
  type CrossFinder = (nat, nat) -> Option<Point2D>

  /** `_lines_intersect` on the centerlines of walls `i` and `j`, with tolerance `itol`. */
  function Finder(m: Math, ws: seq<Wall>, itol: real): CrossFinder
    requires ValidMath(m)
  {
    (i: nat, j: nat) =>
      if i < |ws| && j < |ws| then
        var a, b := ws[i].centerline, ws[j].centerline;
        LinesIntersect(m, a.start, a.end, b.start, b.end, itol)
      else None
  }

  /**
   * The body of the pair loop: when walls `i` and `j` cross at a point no candidate is within
   * `etol` of, append that point once for each wall.
   */
  function AddCrossing(m: Math, cross: CrossFinder, i: nat, j: nat, cands: seq<Candidate>, etol: real): (r: seq<Candidate>)
    requires ValidMath(m) && i < j
    ensures cands <= r
  {
    match cross(i, j)
    case None => cands
    case Some(p) =>
      if NearAny(m, cands, p, etol) then cands
      else cands + [Candidate(p, i, Crossing), Candidate(p, j, Crossing)]
  }

  /** The inner pair loop for wall `i` of `n`, over the partners `j` from `from` on. */
  function CrossRow(m: Math, cross: CrossFinder, n: nat, i: nat, from: nat, cands: seq<Candidate>, etol: real): (r: seq<Candidate>)
    requires ValidMath(m) && i < from <= n
    ensures cands <= r
    decreases n - from
  {
    if from == n then cands
    else CrossRow(m, cross, n, i, from + 1, AddCrossing(m, cross, i, from, cands, etol), etol)
  }

  /** The outer pair loop, over the walls `i` from `from` on. */
  function CrossAll(m: Math, cross: CrossFinder, n: nat, from: nat, cands: seq<Candidate>, etol: real): (r: seq<Candidate>)
    requires ValidMath(m) && from <= n
    ensures cands <= r
    decreases n - from
  {
    if from == n then cands
    else CrossAll(m, cross, n, from + 1, CrossRow(m, cross, n, from, from + 1, cands, etol), etol)
  }

  /** The whole candidate list: the endpoints, then the crossings the pair loops add. */
  function Candidates(m: Math, ws: seq<Wall>, etol: real, itol: real): seq<Candidate>
    requires ValidMath(m)
  {
    CrossAll(m, Finder(m, ws, itol), |ws|, 0, EndpointCandidates(ws), etol)
  }

  /** The inner pair loop as a method. */
  method ScanRow(m: Math, cross: CrossFinder, n: nat, i: nat, cands: seq<Candidate>, etol: real) returns (r: seq<Candidate>)
    requires ValidMath(m) && i < n
    ensures r == CrossRow(m, cross, n, i, i + 1, cands, etol)
  {
    r := cands;
    for j := i + 1 to n
      invariant CrossRow(m, cross, n, i, j, r, etol) == CrossRow(m, cross, n, i, i + 1, cands, etol)
    {
      r := CheckPair(m, cross, i, j, r, etol);
    }
  }

  /** The body of the inner pair loop as a method. */
  method CheckPair(m: Math, cross: CrossFinder, i: nat, j: nat, cands: seq<Candidate>, etol: real) returns (r: seq<Candidate>)
    requires ValidMath(m) && i < j
    ensures r == AddCrossing(m, cross, i, j, cands, etol)
  {
    r := cands;
    var point := cross(i, j);
    if point.Some? {
      var isEndpoint := IsNearCandidate(m, r, point.value, etol);
      if !isEndpoint {
        r := r + [Candidate(point.value, i, Crossing), Candidate(point.value, j, Crossing)];
      }
    }
  }

  /** The outer pair loop as a method. */
  method ScanPairs(m: Math, cross: CrossFinder, n: nat, cands: seq<Candidate>, etol: real) returns (r: seq<Candidate>)
    requires ValidMath(m)
    ensures r == CrossAll(m, cross, n, 0, cands, etol)
  {
    r := cands;
    for i := 0 to n
      invariant CrossAll(m, cross, n, i, r, etol) == CrossAll(m, cross, n, 0, cands, etol)
    {
      r := ScanRow(m, cross, n, i, r, etol);
    }
  }

  // ---------------------------------------------------------------- what the candidates look like

  /**
   * Entries `k` and `k + 1` are the two halves of one crossing: the same point, once for each of
   * two walls in increasing order, and no earlier candidate is within `etol` of it.
   */
  ghost predicate FreshPair(m: Math, r: seq<Candidate>, k: nat, etol: real)
    requires ValidMath(m) && k + 1 < |r|
  {
    && r[k].kind == Crossing && r[k + 1].kind == Crossing
    && r[k].point == r[k + 1].point && r[k].wall < r[k + 1].wall
    && forall q :: 0 <= q < k ==> DistanceTo(m, r[q].point, r[k].point) >= etol
  }

  /** From index `from` on, the list consists of fresh crossing pairs. */
  ghost predicate CrossingPairs(m: Math, r: seq<Candidate>, from: nat, etol: real)
    requires ValidMath(m)
    decreases |r| - from
  {
    if from >= |r| then from == |r|
    else from + 1 < |r| && FreshPair(m, r, from, etol) && CrossingPairs(m, r, from + 2, etol)
  }

  lemma {:induction false} CrossingPairsExtend(m: Math, r: seq<Candidate>, from: nat, a: Candidate, b: Candidate, etol: real)
    requires ValidMath(m) && CrossingPairs(m, r, from, etol) && FreshPair(m, r + [a, b], |r|, etol)
    ensures CrossingPairs(m, r + [a, b], from, etol)
    decreases |r| - from
  {
    if from < |r| {
      CrossingPairsExtend(m, r, from + 2, a, b, etol);
      assert FreshPair(m, r + [a, b], from, etol);
    }
  }

  lemma AddCrossingPairs(m: Math, cross: CrossFinder, i: nat, j: nat, cands: seq<Candidate>, from: nat, etol: real)
    requires ValidMath(m) && i < j && CrossingPairs(m, cands, from, etol)
    ensures CrossingPairs(m, AddCrossing(m, cross, i, j, cands, etol), from, etol)
  {
    var r := AddCrossing(m, cross, i, j, cands, etol);
    if r != cands {
      var p := cross(i, j).value;
      CrossingPairsExtend(m, cands, from, Candidate(p, i, Crossing), Candidate(p, j, Crossing), etol);
    }
  }

  lemma {:induction false} CrossRowPairs(m: Math, cross: CrossFinder, n: nat, i: nat, j: nat, cands: seq<Candidate>, from: nat, etol: real)
    requires ValidMath(m) && i < j <= n && CrossingPairs(m, cands, from, etol)
    ensures CrossingPairs(m, CrossRow(m, cross, n, i, j, cands, etol), from, etol)
    decreases n - j
  {
    if j < n {
      AddCrossingPairs(m, cross, i, j, cands, from, etol);
      CrossRowPairs(m, cross, n, i, j + 1, AddCrossing(m, cross, i, j, cands, etol), from, etol);
    }
  }

  lemma {:induction false} CrossAllPairs(m: Math, cross: CrossFinder, n: nat, i: nat, cands: seq<Candidate>, from: nat, etol: real)
    requires ValidMath(m) && i <= n && CrossingPairs(m, cands, from, etol)
    ensures CrossingPairs(m, CrossAll(m, cross, n, i, cands, etol), from, etol)
    decreases n - i
  {
    if i < n {
      CrossRowPairs(m, cross, n, i, i + 1, cands, from, etol);
      CrossAllPairs(m, cross, n, i + 1, CrossRow(m, cross, n, i, i + 1, cands, etol), from, etol);
    }
  }

  lemma {:induction false} CrossRowWalls(m: Math, cross: CrossFinder, n: nat, i: nat, j: nat, cands: seq<Candidate>, etol: real)
    requires ValidMath(m) && i < j <= n && WallsBelow(cands, n)
    ensures WallsBelow(CrossRow(m, cross, n, i, j, cands, etol), n)
    decreases n - j
  {
    if j < n {
      CrossRowWalls(m, cross, n, i, j + 1, AddCrossing(m, cross, i, j, cands, etol), etol);
    }
  }

  lemma {:induction false} CrossAllWalls(m: Math, cross: CrossFinder, n: nat, i: nat, cands: seq<Candidate>, etol: real)
    requires ValidMath(m) && i <= n && WallsBelow(cands, n)
    ensures WallsBelow(CrossAll(m, cross, n, i, cands, etol), n)
    decreases n - i
  {
    if i < n {
      CrossRowWalls(m, cross, n, i, i + 1, cands, etol);
      CrossAllWalls(m, cross, n, i + 1, CrossRow(m, cross, n, i, i + 1, cands, etol), etol);
    }
  }

  /**
   * The candidate list starts with the 2n endpoints in wall order, and every later entry is
   * half of a crossing pair whose point no earlier candidate is within `etol` of; every
   * candidate names one of the walls.
   */
  lemma CandidatesFacts(m: Math, ws: seq<Wall>, etol: real, itol: real)
    requires ValidMath(m)
    ensures var c := Candidates(m, ws, etol, itol);
      && EndpointCandidates(ws) <= c
      && CrossingPairs(m, c, 2 * |ws|, etol)
      && WallsBelow(c, |ws|)
  {
    var e := EndpointCandidates(ws);
    assert CrossingPairs(m, e, 2 * |ws|, etol);
    CrossAllPairs(m, Finder(m, ws, itol), |ws|, 0, e, 2 * |ws|, etol);
    CrossAllWalls(m, Finder(m, ws, itol), |ws|, 0, e, etol);
  }

  // ---------------------------------------------------------------- grouping

  /**
   * The candidates from index `from` on, other than `seed` and not yet processed, whose points
   * lie closer than `tol` to the seed's point, in index order.
   */
  function Nearby(m: Math, cands: seq<Candidate>, seed: nat, processed: set<nat>, from: nat, tol: real): (r: seq<nat>)
    requires ValidMath(m) && seed < |cands| && from <= |cands|
    ensures Below(r, |cands|)
    decreases |cands| - from
  {
    if from == |cands| then []
    else
      var rest := Nearby(m, cands, seed, processed, from + 1, tol);
      if from != seed && from !in processed && DistanceTo(m, cands[seed].point, cands[from].point) < tol
      then [from] + rest else rest
  }

  /** Exactly the qualifying neighbours are collected, in increasing index order. */
  lemma {:induction false} NearbyFacts(m: Math, cands: seq<Candidate>, seed: nat, processed: set<nat>, from: nat, tol: real)
    requires ValidMath(m) && seed < |cands| && from <= |cands|
    ensures var r := Nearby(m, cands, seed, processed, from, tol);
      && (forall k :: k in r <==>
           from <= k < |cands| && k != seed && k !in processed && DistanceTo(m, cands[seed].point, cands[k].point) < tol)
      && (forall a, b :: 0 <= a < b < |r| ==> r[a] < r[b])
    decreases |cands| - from
  {
    if from < |cands| {
      NearbyFacts(m, cands, seed, processed, from + 1, tol);
      var rest := Nearby(m, cands, seed, processed, from + 1, tol);
      assert forall a :: 0 <= a < |rest| ==> rest[a] in rest;
    }
  }

  /** `nearby_indices`: the seed followed by its unprocessed neighbours. */
  function Members(m: Math, cands: seq<Candidate>, seed: nat, processed: set<nat>, tol: real): (r: seq<nat>)
    requires ValidMath(m) && seed < |cands|
    ensures r != [] && r[0] == seed && Below(r, |cands|)
  {
    [seed] + Nearby(m, cands, seed, processed, 0, tol)
  }

  /** Every index in `g` is below `n`. */
  predicate Below(g: seq<nat>, n: nat)
  {
    forall k :: 0 <= k < |g| ==> g[k] < n
  }

  function Elems(g: seq<nat>): set<nat>
  {
    set k | k in g
  }

  /** Every group is non-empty and names only candidates below `n`. */
  ghost predicate WellFormedGroups(gs: seq<seq<nat>>, n: nat)
  {
    forall i :: 0 <= i < |gs| ==> gs[i] != [] && Below(gs[i], n)
  }

  /**
   * The grouping loop from candidate `idx` on: each candidate not yet processed seeds a group
   * of itself and its unprocessed neighbours, and every member becomes processed.
   */
  function Groups(m: Math, cands: seq<Candidate>, idx: nat, processed: set<nat>, tol: real): (r: seq<seq<nat>>)
    requires ValidMath(m) && idx <= |cands|
    ensures WellFormedGroups(r, |cands|)
    decreases |cands| - idx
  {
    if idx == |cands| then []
    else if idx in processed then Groups(m, cands, idx + 1, processed, tol)
    else
      var g := Members(m, cands, idx, processed, tol);
      [g] + Groups(m, cands, idx + 1, processed + Elems(g), tol)
  }

  /** `nearby_wall_indices`: the walls of a group's candidates. */
  function WallSet(cands: seq<Candidate>, g: seq<nat>): (r: set<nat>)
    requires Below(g, |cands|)
    ensures forall k :: 0 <= k < |g| ==> cands[g[k]].wall in r
    ensures forall w :: w in r ==> exists k :: 0 <= k < |g| && cands[g[k]].wall == w
  {
    if g == [] then {}
    else
      var init := g[..|g| - 1];
      WallSet(cands, init) + {cands[g[|g| - 1]].wall}
  }

  /** One more than the largest wall index of a group. */
  function WallBound(cands: seq<Candidate>, g: seq<nat>): (r: nat)
    requires Below(g, |cands|)
    ensures forall w :: w in WallSet(cands, g) ==> w < r
  {
    if g == [] then 0
    else
      var init := g[..|g| - 1];
      var b := WallBound(cands, init);
      var w := cands[g[|g| - 1]].wall;
      if w + 1 > b then w + 1 else b
  }

  /** The elements of `s` below `n` in increasing order. */
  function SortedBelow(s: set<nat>, n: nat): (r: seq<nat>)
    ensures forall k :: k in r <==> k in s && k < n
    ensures forall a, b :: 0 <= a < b < |r| ==> r[a] < r[b]
  {
    if n == 0 then []
    else
      var r := SortedBelow(s, n - 1);
      assert forall a :: 0 <= a < |r| ==> r[a] in r;
      if n - 1 in s then r + [n - 1] else r
  }

  /** A strictly increasing sequence has as many elements as its set of elements. */
  lemma {:induction false} IncreasingCard(r: seq<nat>)
    requires forall a, b :: 0 <= a < b < |r| ==> r[a] < r[b]
    ensures |Elems(r)| == |r|
  {
    if r != [] {
      var init := r[..|r| - 1];
      IncreasingCard(init);
      assert Elems(r) == Elems(init) + {r[|r| - 1]};
      assert r[|r| - 1] !in Elems(init);
    }
  }

  /** `sorted(list(nearby_wall_indices))`. */
  function WallIndices(cands: seq<Candidate>, g: seq<nat>): (r: seq<nat>)
    requires Below(g, |cands|)
    ensures Elems(r) == WallSet(cands, g) && |r| == |WallSet(cands, g)|
    ensures forall a, b :: 0 <= a < b < |r| ==> r[a] < r[b]
  {
    var r := SortedBelow(WallSet(cands, g), WallBound(cands, g));
    IncreasingCard(r);
    r
  }

  /** The coordinates of a group's points. */
  function Xs(cands: seq<Candidate>, g: seq<nat>): (r: seq<real>)
    requires Below(g, |cands|)
    ensures |r| == |g|
  {
    seq(|g|, k requires 0 <= k < |g| => cands[g[k]].point.x)
  }

  function Ys(cands: seq<Candidate>, g: seq<nat>): (r: seq<real>)
    requires Below(g, |cands|)
    ensures |r| == |g|
  {
    seq(|g|, k requires 0 <= k < |g| => cands[g[k]].point.y)
  }

  /** `avg_point`: the mean of a group's candidate points. */
  function MeanPoint(cands: seq<Candidate>, g: seq<nat>): Point2D
    requires g != [] && Below(g, |cands|)
  {
    Point2D(Mean(Xs(cands, g)), Mean(Ys(cands, g)))
  }

  /** The intersection one group reports: none unless its candidates span more than one wall. */
  function ReportOf(cands: seq<Candidate>, g: seq<nat>): (r: seq<WallIntersection>)
    requires g != [] && Below(g, |cands|)
    ensures |r| <= 1
  {
    if |WallSet(cands, g)| > 1 then [WallIntersection(MeanPoint(cands, g), WallIndices(cands, g))] else []
  }

  /** The intersections reported for a list of groups, in group order. */
  function Reported(cands: seq<Candidate>, gs: seq<seq<nat>>): seq<WallIntersection>
    requires WellFormedGroups(gs, |cands|)
  {
    if gs == [] then [] else ReportOf(cands, gs[0]) + Reported(cands, gs[1..])
  }

  /** What the grouping loop still reports from candidate `idx` on, with `processed` already taken. */
  ghost function Remaining(m: Math, cands: seq<Candidate>, idx: nat, processed: set<nat>, tol: real): seq<WallIntersection>
    requires ValidMath(m) && idx <= |cands|
  {
    Reported(cands, Groups(m, cands, idx, processed, tol))
  }

  /** One step of the grouping loop: a processed candidate reports nothing; an unprocessed one reports its group's junction first. */
  lemma ReportedStep(m: Math, cands: seq<Candidate>, idx: nat, processed: set<nat>, tol: real)
    requires ValidMath(m) && idx < |cands|
    ensures idx in processed ==>
      Remaining(m, cands, idx, processed, tol) == Remaining(m, cands, idx + 1, processed, tol)
    ensures idx !in processed ==>
      var g := Members(m, cands, idx, processed, tol);
      Remaining(m, cands, idx, processed, tol)
        == ReportOf(cands, g) + Remaining(m, cands, idx + 1, processed + Elems(g), tol)
  {
    if idx !in processed {
      var g := Members(m, cands, idx, processed, tol);
      var gs := Groups(m, cands, idx, processed, tol);
      assert gs[0] == g && gs[1..] == Groups(m, cands, idx + 1, processed + Elems(g), tol);
    }
  }

  /** The inner loop of the grouping: collects the neighbours of `seed` and their walls. */
  method CollectNearby(m: Math, cands: seq<Candidate>, seed: nat, processed: set<nat>, tol: real)
    returns (nearby: seq<nat>, walls: set<nat>)
    requires ValidMath(m) && seed < |cands|
    ensures nearby == Members(m, cands, seed, processed, tol)
    ensures walls == WallSet(cands, nearby)
  {
    nearby, walls := [seed], {cands[seed].wall};
    assert walls == WallSet(cands, nearby) by {
      assert nearby[..0] == [];
    }
    for other := 0 to |cands|
      invariant Below(nearby, |cands|)
      invariant nearby + Nearby(m, cands, seed, processed, other, tol) == Members(m, cands, seed, processed, tol)
      invariant walls == WallSet(cands, nearby)
    {
      ghost var nearby0, walls0 := nearby, walls;
      if other != seed && other !in processed && DistanceTo(m, cands[seed].point, cands[other].point) < tol {
        nearby := nearby + [other];
        walls := walls + {cands[other].wall};
      }
      NearbyStep(m, cands, seed, processed, other, tol, nearby0, nearby, walls0, walls);
    }
  }

  /** One step of the neighbour loop: the group so far plus the neighbours still to scan stays the same. */
  lemma NearbyStep(m: Math, cands: seq<Candidate>, seed: nat, processed: set<nat>, other: nat, tol: real,
                   g: seq<nat>, g': seq<nat>, walls: set<nat>, walls': set<nat>)
    requires ValidMath(m) && seed < |cands| && other < |cands| && Below(g, |cands|) && walls == WallSet(cands, g)
    requires var hit := other != seed && other !in processed && DistanceTo(m, cands[seed].point, cands[other].point) < tol;
      && g' == (if hit then g + [other] else g)
      && walls' == (if hit then walls + {cands[other].wall} else walls)
    ensures Below(g', |cands|) && walls' == WallSet(cands, g')
    ensures g' + Nearby(m, cands, seed, processed, other + 1, tol) == g + Nearby(m, cands, seed, processed, other, tol)
  {
    var rest := Nearby(m, cands, seed, processed, other + 1, tol);
    NearbyUnfold(m, cands, seed, processed, other, tol);
    if g' != g {
      WallSetSnoc(cands, g, other);
      ConcatAssoc(g, [other], rest);
    }
  }

  lemma NearbyUnfold(m: Math, cands: seq<Candidate>, seed: nat, processed: set<nat>, other: nat, tol: real)
    requires ValidMath(m) && seed < |cands| && other < |cands|
    ensures var hit := other != seed && other !in processed && DistanceTo(m, cands[seed].point, cands[other].point) < tol;
      Nearby(m, cands, seed, processed, other, tol)
        == if hit then [other] + Nearby(m, cands, seed, processed, other + 1, tol) else Nearby(m, cands, seed, processed, other + 1, tol)
  {
  }

  lemma WallSetSnoc(cands: seq<Candidate>, g: seq<nat>, k: nat)
    requires Below(g, |cands|) && k < |cands|
    ensures Below(g + [k], |cands|) && WallSet(cands, g + [k]) == WallSet(cands, g) + {cands[k].wall}
  {
    assert (g + [k])[..|g|] == g;
  }

  /** The grouping loop of `detect_wall_intersections`, with its `processed` set. */
  method GroupCandidates(m: Math, cands: seq<Candidate>, tol: real) returns (r: seq<WallIntersection>)
    requires ValidMath(m)
    ensures r == Reported(cands, Groups(m, cands, 0, {}, tol))
  {
    r := [];
    var processed: set<nat> := {};
    ghost var total := Remaining(m, cands, 0, {}, tol);
    for idx := 0 to |cands|
      invariant r + Remaining(m, cands, idx, processed, tol) == total
    {
      if idx !in processed {
        var nearby, walls := CollectNearby(m, cands, idx, processed, tol);
        ghost var r0 := r;
        if |walls| > 1 {
          // the junction at the group's mean point, over its sorted walls
          r := r + ReportOf(cands, nearby);
        }
        GroupingStep(m, cands, idx, processed, tol, r0, r, nearby, walls);
        processed := processed + Elems(nearby);
      } else {
        ReportedStep(m, cands, idx, processed, tol);
      }
    }
  }

  /** The loop body for an unprocessed seed: appending its report keeps the reports so far plus the rest equal to the whole. */
  lemma GroupingStep(m: Math, cands: seq<Candidate>, idx: nat, processed: set<nat>, tol: real,
                     r: seq<WallIntersection>, r': seq<WallIntersection>, nearby: seq<nat>, walls: set<nat>)
    requires ValidMath(m) && idx < |cands| && idx !in processed
    requires nearby == Members(m, cands, idx, processed, tol) && walls == WallSet(cands, nearby)
    requires r' == if |walls| > 1 then r + ReportOf(cands, nearby) else r
    ensures r' + Remaining(m, cands, idx + 1, processed + Elems(nearby), tol) == r + Remaining(m, cands, idx, processed, tol)
  {
    ReportedStep(m, cands, idx, processed, tol);
    var one := ReportOf(cands, nearby);
    var rest := Remaining(m, cands, idx + 1, processed + Elems(nearby), tol);
    if |walls| <= 1 {
      assert r + one == r;
    }
    ConcatAssoc(r, one, rest);
  }

  // ---------------------------------------------------------------- what the groups look like

  /** No group meets `processed`, and no two groups share a candidate. */
  ghost predicate DisjointGroups(gs: seq<seq<nat>>, processed: set<nat>)
  {
    && (forall i :: 0 <= i < |gs| ==> Elems(gs[i]) !! processed)
    && (forall i, j :: 0 <= i < j < |gs| ==> Elems(gs[i]) !! Elems(gs[j]))
  }

  /** The groups from `idx` on avoid what was processed before and are pairwise disjoint. */
  lemma {:induction false} GroupsDisjoint(m: Math, cands: seq<Candidate>, idx: nat, processed: set<nat>, tol: real)
    requires ValidMath(m) && idx <= |cands|
    ensures DisjointGroups(Groups(m, cands, idx, processed, tol), processed)
    decreases |cands| - idx
  {
    if idx < |cands| {
      var gs := Groups(m, cands, idx, processed, tol);
      if idx in processed {
        GroupsDisjoint(m, cands, idx + 1, processed, tol);
        assert gs == Groups(m, cands, idx + 1, processed, tol);
      } else {
        var g := Members(m, cands, idx, processed, tol);
        NearbyFacts(m, cands, idx, processed, 0, tol);
        assert Elems(g) !! processed;
        var rest := Groups(m, cands, idx + 1, processed + Elems(g), tol);
        GroupsDisjoint(m, cands, idx + 1, processed + Elems(g), tol);
        assert gs == [g] + rest;
        forall i | 0 <= i < |gs| ensures Elems(gs[i]) !! processed {
          if i > 0 {
            assert gs[i] == rest[i - 1];
          }
        }
        forall i, j | 0 <= i < j < |gs| ensures Elems(gs[i]) !! Elems(gs[j]) {
          assert gs[j] == rest[j - 1];
          assert Elems(rest[j - 1]) !! processed + Elems(g);
          if i > 0 {
            assert gs[i] == rest[i - 1];
          }
        }
      }
    }
  }

  /** Every candidate from `idx` on that is not yet processed ends up in some group. */
  ghost predicate InSomeGroup(gs: seq<seq<nat>>, k: nat)
  {
    exists i :: 0 <= i < |gs| && k in gs[i]
  }

  lemma {:induction false} GroupsCover(m: Math, cands: seq<Candidate>, idx: nat, processed: set<nat>, tol: real, k: nat)
    requires ValidMath(m) && idx <= k < |cands| && k !in processed
    ensures InSomeGroup(Groups(m, cands, idx, processed, tol), k)
    decreases |cands| - idx
  {
    var gs := Groups(m, cands, idx, processed, tol);
    if idx in processed {
      GroupsCover(m, cands, idx + 1, processed, tol, k);
      assert gs == Groups(m, cands, idx + 1, processed, tol);
    } else {
      var g := Members(m, cands, idx, processed, tol);
      if k in g {
        assert k in gs[0];
      } else {
        var rest := Groups(m, cands, idx + 1, processed + Elems(g), tol);
        assert gs[1..] == rest;
        GroupsCover(m, cands, idx + 1, processed + Elems(g), tol, k);
        var i :| 0 <= i < |rest| && k in rest[i];
        assert k in gs[i + 1];
      }
    }
  }

  /** Every member of a group after its seed lies within `tol` of the seed's point. */
  ghost predicate NearSeed(m: Math, cands: seq<Candidate>, gs: seq<seq<nat>>, tol: real)
    requires ValidMath(m) && WellFormedGroups(gs, |cands|)
  {
    forall i, k :: 0 <= i < |gs| && 0 < k < |gs[i]| ==>
      DistanceTo(m, cands[gs[i][0]].point, cands[gs[i][k]].point) < tol
  }

  /** A group is its seed and candidates within `tol` of the seed's point (not a transitive closure). */
  lemma {:induction false} GroupsNearSeed(m: Math, cands: seq<Candidate>, idx: nat, processed: set<nat>, tol: real)
    requires ValidMath(m) && idx <= |cands|
    ensures NearSeed(m, cands, Groups(m, cands, idx, processed, tol), tol)
    decreases |cands| - idx
  {
    if idx < |cands| {
      var gs := Groups(m, cands, idx, processed, tol);
      if idx in processed {
        GroupsNearSeed(m, cands, idx + 1, processed, tol);
        assert gs == Groups(m, cands, idx + 1, processed, tol);
      } else {
        var g := Members(m, cands, idx, processed, tol);
        NearbyFacts(m, cands, idx, processed, 0, tol);
        assert forall k :: 0 < k < |g| ==> g[k] in Nearby(m, cands, idx, processed, 0, tol);
        var rest := Groups(m, cands, idx + 1, processed + Elems(g), tol);
        GroupsNearSeed(m, cands, idx + 1, processed + Elems(g), tol);
        assert gs == [g] + rest;
        forall i, k | 0 <= i < |gs| && 0 < k < |gs[i]|
          ensures DistanceTo(m, cands[gs[i][0]].point, cands[gs[i][k]].point) < tol
        {
          if i > 0 {
            assert gs[i] == rest[i - 1];
          }
        }
      }
    }
  }

  /**
   * The groups of the whole loop partition the candidates: pairwise disjoint, together
   * covering every candidate, each one a seed and its neighbours within `tol`.
   */
  lemma GroupsPartition(m: Math, cands: seq<Candidate>, tol: real)
    requires ValidMath(m)
    ensures DisjointGroups(Groups(m, cands, 0, {}, tol), {})
    ensures forall k :: 0 <= k < |cands| ==> InSomeGroup(Groups(m, cands, 0, {}, tol), k)
    ensures NearSeed(m, cands, Groups(m, cands, 0, {}, tol), tol)
  {
    GroupsDisjoint(m, cands, 0, {}, tol);
    GroupsNearSeed(m, cands, 0, {}, tol);
    forall k | 0 <= k < |cands| ensures InSomeGroup(Groups(m, cands, 0, {}, tol), k) {
      GroupsCover(m, cands, 0, {}, tol, k);
    }
  }

  /** What a reported junction carries: at least two distinct walls, in increasing order, all below `n` when the candidates' are. */
  ghost predicate GoodJunction(x: WallIntersection, n: nat)
  {
    && |x.wallIndices| >= 2
    && (forall a, b :: 0 <= a < b < |x.wallIndices| ==> x.wallIndices[a] < x.wallIndices[b])
    && Below(x.wallIndices, n)
  }

  lemma {:induction false} ReportedFacts(cands: seq<Candidate>, gs: seq<seq<nat>>, n: nat)
    requires WellFormedGroups(gs, |cands|) && WallsBelow(cands, n)
    ensures forall k :: 0 <= k < |Reported(cands, gs)| ==> GoodJunction(Reported(cands, gs)[k], n)
  {
    if gs != [] {
      ReportedFacts(cands, gs[1..], n);
      ReportOfGood(cands, gs[0], n);
      var one, rest := ReportOf(cands, gs[0]), Reported(cands, gs[1..]);
      forall k | 0 <= k < |one + rest| ensures GoodJunction((one + rest)[k], n) {
        if k < |one| {
          assert (one + rest)[k] == one[k];
        } else {
          assert (one + rest)[k] == rest[k - |one|];
        }
      }
    }
  }

  lemma ReportOfGood(cands: seq<Candidate>, g: seq<nat>, n: nat)
    requires g != [] && Below(g, |cands|) && WallsBelow(cands, n)
    ensures forall k :: 0 <= k < |ReportOf(cands, g)| ==> GoodJunction(ReportOf(cands, g)[k], n)
  {
    var ix := WallIndices(cands, g);
    forall a | 0 <= a < |ix| ensures ix[a] < n {
      assert ix[a] in Elems(ix);
    }
  }

  // ---------------------------------------------------------------- detection

  /** `detect_wall_intersections`: nothing for fewer than two walls; otherwise the junctions of the grouped candidates. */
  function DetectSpec(m: Math, ws: seq<Wall>, etol: real, itol: real): (r: seq<WallIntersection>)
    requires ValidMath(m)
    ensures |ws| < 2 ==> r == []
  {
    if |ws| < 2 then []
    else
      var cands := Candidates(m, ws, etol, itol);
      Reported(cands, Groups(m, cands, 0, {}, etol))
  }

  method DetectWallIntersections(m: Math, ws: seq<Wall>, etol: real, itol: real) returns (r: seq<WallIntersection>)
    requires ValidMath(m)
    ensures r == DetectSpec(m, ws, etol, itol)
  {
    if |ws| < 2 {
      return [];
    }
    var cands := CollectEndpoints(ws);
    cands := ScanPairs(m, Finder(m, ws, itol), |ws|, cands, etol);
    r := GroupCandidates(m, cands, etol);
  }

  /**
   * Every detected junction lists at least two distinct walls of the input, in increasing
   * order, so its type is never "endpoint".
   */
  lemma DetectFacts(m: Math, ws: seq<Wall>, etol: real, itol: real)
    requires ValidMath(m)
    ensures var r := DetectSpec(m, ws, etol, itol);
      forall k :: 0 <= k < |r| ==> GoodJunction(r[k], |ws|) && IntersectionType(r[k]) != "endpoint"
    ensures IndicesBelow(DetectSpec(m, ws, etol, itol), |ws|)
  {
    if |ws| >= 2 {
      var cands := Candidates(m, ws, etol, itol);
      CandidatesFacts(m, ws, etol, itol);
      ReportedFacts(cands, Groups(m, cands, 0, {}, etol), |ws|);
    }
  }

  // ---------------------------------------------------------------- endpoint adjustment

  /** `adjust_walls_at_intersections`' default snap tolerance (mm). */
  const DefaultSnapTolerance: real := 50.0

  /** The metadata key an adjusted wall is marked with. */
  const AdjustedKey: string := "adjusted_at_intersection"

  /** Every junction lists only walls below `n`. */
  ghost predicate IndicesBelow(xs: seq<WallIntersection>, n: nat)
  {
    forall j :: 0 <= j < |xs| ==> Below(xs[j].wallIndices, n)
  }

  /** The state of the per-wall loop: `new_start`, `new_end` and `adjusted`. */
  datatype Adjustment = Adjustment(start: Point2D, end: Point2D, adjusted: bool)

  /** `p` moved `ext` further along the direction from `from` to `p`; unchanged when `p` is `from`. */
  function Extend(m: Math, p: Point2D, from: Point2D, ext: real): Point2D
    requires ValidMath(m)
  {
    var dx, dy := p.x - from.x, p.y - from.y;
    var length := DistanceTo(m, p, from);
    if length > 0.0 then Point2D(p.x + dx / length * ext, p.y + dy / length * ext) else p
  }

  /** Extending moves the point exactly `ext` further away from `from`. */
  lemma ExtendDistance(m: Math, p: Point2D, from: Point2D, ext: real)
    requires ValidMath(m) && DistanceTo(m, p, from) > 0.0 && DistanceTo(m, p, from) + ext >= 0.0
    ensures DistanceTo(m, Extend(m, p, from, ext), from) == DistanceTo(m, p, from) + ext
  {
    var length := DistanceTo(m, p, from);
    var q := Extend(m, p, from, ext);
    ScaleOffset(p.x, from.x, length, ext);
    ScaleOffset(p.y, from.y, length, ext);
    ScaledDistance(m, q, p, from, length, ext);
  }

  /** A point whose offset from `from` is `p`'s scaled by `1 + ext / l`, with `l` the distance from `p`, lies `l + ext` away. */
  lemma ScaledDistance(m: Math, q: Point2D, p: Point2D, from: Point2D, l: real, ext: real)
    requires ValidMath(m) && l > 0.0 && l + ext >= 0.0 && l * l == SqDist(p, from)
    requires q.x - from.x == (p.x - from.x) * (1.0 + ext / l) && q.y - from.y == (p.y - from.y) * (1.0 + ext / l)
    ensures DistanceTo(m, q, from) == l + ext
  {
    var k := 1.0 + ext / l;
    ScaledSqDist(q, p, from, k);
    ScaledLength(l, ext, k, SqDist(p, from));
    SqrtUnique(m, SqDist(q, from), l + ext);
  }

  lemma ScaleOffset(c: real, f: real, l: real, ext: real)
    requires l != 0.0
    ensures c + (c - f) / l * ext - f == (c - f) * (1.0 + ext / l)
  {
  }

  /** Scaling the offset from `from` by `k` scales the squared distance by `k * k`. */
  lemma ScaledSqDist(q: Point2D, p: Point2D, from: Point2D, k: real)
    requires q.x - from.x == (p.x - from.x) * k && q.y - from.y == (p.y - from.y) * k
    ensures SqDist(q, from) == (k * k) * SqDist(p, from)
  {
    var dx, dy := p.x - from.x, p.y - from.y;
    assert (dx * k) * (dx * k) == (k * k) * (dx * dx);
    assert (dy * k) * (dy * k) == (k * k) * (dy * dy);
  }

  lemma ScaledLength(l: real, ext: real, k: real, sq: real)
    requires l > 0.0 && k == 1.0 + ext / l && l * l == sq
    ensures (l + ext) * (l + ext) == (k * k) * sq
  {
    assert ext / l * l == ext;
    assert k * l == l + ext;
    assert (k * l) * (k * l) == (k * k) * (l * l);
  }

  /** The other wall of a two-wall junction that lists `i`. */
  function Other(x: WallIntersection, i: nat): (r: nat)
    requires |x.wallIndices| == 2 && i in x.wallIndices
    ensures r in x.wallIndices
    ensures x.wallIndices[0] != x.wallIndices[1] ==> r != i
  {
    if x.wallIndices[0] == i then x.wallIndices[1] else x.wallIndices[0]
  }

  /** An endpoint of wall `i` lies within `snapTol` of a junction that lists it. */
  predicate Touches(m: Math, ws: seq<Wall>, i: nat, x: WallIntersection, snapTol: real)
    requires ValidMath(m) && i < |ws|
  {
    && i in x.wallIndices
    && (DistanceTo(m, ws[i].centerline.start, x.point) < snapTol || DistanceTo(m, ws[i].centerline.end, x.point) < snapTol)
  }

  /**
   * One iteration of the loop over junctions for wall `i`: endpoints near a junction that
   * lists the wall snap to it; at a two-wall junction they are then pushed half the other
   * wall's thickness further, away from the wall's original opposite endpoint.
   */
  function Step(m: Math, ws: seq<Wall>, i: nat, x: WallIntersection, a: Adjustment, snapTol: real, extend: bool): Adjustment
    requires ValidMath(m) && i < |ws| && Below(x.wallIndices, |ws|)
  {
    if i !in x.wallIndices then a
    else
      var line := ws[i].centerline;
      var startAt := DistanceTo(m, line.start, x.point) < snapTol;
      var endAt := DistanceTo(m, line.end, x.point) < snapTol;
      var s := if startAt then x.point else a.start;
      var e := if endAt then x.point else a.end;
      var adjusted := a.adjusted || startAt || endAt;
      if extend && |x.wallIndices| == 2 then
        var ext := ws[Other(x, i)].thickness / 2.0;
        Adjustment(
          if startAt then Extend(m, s, line.end, ext) else s,
          if endAt then Extend(m, e, line.start, ext) else e,
          adjusted)
      else Adjustment(s, e, adjusted)
  }

  /** The loop over junctions from junction `k` on. */
  function AdjustFrom(m: Math, ws: seq<Wall>, i: nat, xs: seq<WallIntersection>, k: nat, a: Adjustment, snapTol: real, extend: bool): Adjustment
    requires ValidMath(m) && i < |ws| && k <= |xs| && IndicesBelow(xs, |ws|)
    decreases |xs| - k
  {
    if k == |xs| then a
    else AdjustFrom(m, ws, i, xs, k + 1, Step(m, ws, i, xs[k], a, snapTol, extend), snapTol, extend)
  }

  /** Wall `i` after the loop: rebuilt on the new endpoints if any junction adjusted it, else the wall itself. */
  function AdjustWall(m: Math, ws: seq<Wall>, i: nat, xs: seq<WallIntersection>, snapTol: real, extend: bool): Wall
    requires ValidMath(m) && i < |ws| && IndicesBelow(xs, |ws|)
  {
    var w := ws[i];
    var a := AdjustFrom(m, ws, i, xs, 0, Adjustment(w.centerline.start, w.centerline.end, false), snapTol, extend);
    if a.adjusted then
      Wall(Line2D(a.start, a.end, w.centerline.layer), w.thickness, w.height, false, false,
           w.confidence, w.sourceLayer, w.metadata[AdjustedKey := MFlag(true)])
    else w
  }

  /** `adjust_walls_at_intersections`: the input itself without junctions, otherwise every wall adjusted in turn. */
  function AdjustSpec(m: Math, ws: seq<Wall>, xs: seq<WallIntersection>, snapTol: real, extend: bool): (r: seq<Wall>)
    requires ValidMath(m) && IndicesBelow(xs, |ws|)
    ensures |r| == |ws|
    ensures xs == [] ==> r == ws
  {
    if xs == [] then ws
    else seq(|ws|, i requires 0 <= i < |ws| => AdjustWall(m, ws, i, xs, snapTol, extend))
  }

  /** The loop over junctions for one wall. */
  method AdjustOne(m: Math, ws: seq<Wall>, i: nat, xs: seq<WallIntersection>, snapTol: real, extend: bool) returns (a: Adjustment)
    requires ValidMath(m) && i < |ws| && IndicesBelow(xs, |ws|)
    ensures a == AdjustFrom(m, ws, i, xs, 0, Adjustment(ws[i].centerline.start, ws[i].centerline.end, false), snapTol, extend)
  {
    var line := ws[i].centerline;
    var newStart, newEnd, adjusted := line.start, line.end, false;
    for k := 0 to |xs|
      invariant AdjustFrom(m, ws, i, xs, k, Adjustment(newStart, newEnd, adjusted), snapTol, extend)
             == AdjustFrom(m, ws, i, xs, 0, Adjustment(line.start, line.end, false), snapTol, extend)
    {
      var x := xs[k];
      if i in x.wallIndices {
        var startAt := DistanceTo(m, line.start, x.point) < snapTol;
        var endAt := DistanceTo(m, line.end, x.point) < snapTol;
        if startAt {
          newStart, adjusted := x.point, true;
        }
        if endAt {
          newEnd, adjusted := x.point, true;
        }
        if extend && |x.wallIndices| == 2 {
          var extension := ws[Other(x, i)].thickness / 2.0;
          if startAt {
            newStart := Extend(m, newStart, line.end, extension);
          }
          if endAt {
            newEnd := Extend(m, newEnd, line.start, extension);
          }
        }
      }
    }
    a := Adjustment(newStart, newEnd, adjusted);
  }

  method AdjustWallsAtIntersections(m: Math, ws: seq<Wall>, xs: seq<WallIntersection>, snapTol: real, extend: bool)
    returns (r: seq<Wall>)
    requires ValidMath(m) && IndicesBelow(xs, |ws|)
    ensures r == AdjustSpec(m, ws, xs, snapTol, extend)
  {
    if xs == [] {
      return ws;
    }
    r := [];
    for i := 0 to |ws|
      invariant |r| == i
      invariant forall k :: 0 <= k < i ==> r[k] == AdjustWall(m, ws, k, xs, snapTol, extend)
    {
      var w := ws[i];
      var a := AdjustOne(m, ws, i, xs, snapTol, extend);
      if a.adjusted {
        var centerline := Line2D(a.start, a.end, w.centerline.layer);
        r := r + [Wall(centerline, w.thickness, w.height, false, false, w.confidence, w.sourceLayer,
                       w.metadata[AdjustedKey := MFlag(true)])];
      } else {
        r := r + [w];
      }
    }
  }

  // ---------------------------------------------------------------- what adjustment does

  /** Some junction from index `k` on has an endpoint of wall `i` within the snap tolerance. */
  ghost predicate TouchedFrom(m: Math, ws: seq<Wall>, i: nat, xs: seq<WallIntersection>, k: nat, snapTol: real)
    requires ValidMath(m) && i < |ws|
  {
    exists j :: k <= j < |xs| && Touches(m, ws, i, xs[j], snapTol)
  }

  /** The loop marks a wall adjusted exactly when some junction that lists it is within reach of one of its endpoints. */
  lemma {:induction false} AdjustedIff(m: Math, ws: seq<Wall>, i: nat, xs: seq<WallIntersection>, k: nat, a: Adjustment, snapTol: real, extend: bool)
    requires ValidMath(m) && i < |ws| && k <= |xs| && IndicesBelow(xs, |ws|)
    ensures AdjustFrom(m, ws, i, xs, k, a, snapTol, extend).adjusted <==> a.adjusted || TouchedFrom(m, ws, i, xs, k, snapTol)
    decreases |xs| - k
  {
    if k < |xs| {
      var b := Step(m, ws, i, xs[k], a, snapTol, extend);
      assert b.adjusted <==> a.adjusted || Touches(m, ws, i, xs[k], snapTol);
      AdjustedIff(m, ws, i, xs, k + 1, b, snapTol, extend);
      if TouchedFrom(m, ws, i, xs, k + 1, snapTol) {
        var j :| k + 1 <= j < |xs| && Touches(m, ws, i, xs[j], snapTol);
        assert k <= j;
      }
      if TouchedFrom(m, ws, i, xs, k, snapTol) && !Touches(m, ws, i, xs[k], snapTol) {
        var j :| k <= j < |xs| && Touches(m, ws, i, xs[j], snapTol);
        assert k + 1 <= j;
      }
    }
  }

  /**
   * A wall no junction reaches is passed through unchanged. A wall some junction reaches keeps
   * its thickness, height, confidence, source layer and line layer, gains the
   * `adjusted_at_intersection` flag, and like every freshly built wall has both flags false.
   */
  lemma AdjustWallFacts(m: Math, ws: seq<Wall>, i: nat, xs: seq<WallIntersection>, snapTol: real, extend: bool)
    requires ValidMath(m) && i < |ws| && IndicesBelow(xs, |ws|)
    ensures var w, r := ws[i], AdjustWall(m, ws, i, xs, snapTol, extend);
      && (!TouchedFrom(m, ws, i, xs, 0, snapTol) ==> r == w)
      && (TouchedFrom(m, ws, i, xs, 0, snapTol) ==>
            && r.thickness == w.thickness && r.height == w.height && r.confidence == w.confidence
            && r.sourceLayer == w.sourceLayer && r.centerline.layer == w.centerline.layer
            && !r.isExterior && !r.isStructural
            && r.metadata == w.metadata[AdjustedKey := MFlag(true)])
  {
    var w := ws[i];
    AdjustedIff(m, ws, i, xs, 0, Adjustment(w.centerline.start, w.centerline.end, false), snapTol, extend);
  }

  /**
   * The point the start (or end) of wall `i` snaps to without extension: that of the last
   * junction from `k` on that lists the wall and lies within reach of the endpoint `p`.
   */
  function LastSnap(m: Math, xs: seq<WallIntersection>, k: nat, i: nat, p: Point2D, snapTol: real): Option<Point2D>
    requires ValidMath(m) && k <= |xs|
    decreases |xs| - k
  {
    if k == |xs| then None
    else match LastSnap(m, xs, k + 1, i, p, snapTol)
      case Some(q) => Some(q)
      case None => if i in xs[k].wallIndices && DistanceTo(m, p, xs[k].point) < snapTol then Some(xs[k].point) else None
  }

  function SnapOr(o: Option<Point2D>, p: Point2D): Point2D
  {
    match o
    case Some(q) => q
    case None => p
  }

  /**
   * Without the thickness extension each endpoint ends at the last junction that reached it,
   * or stays where the loop found it.
   */
  lemma {:induction false} SnapWithoutExtension(m: Math, ws: seq<Wall>, i: nat, xs: seq<WallIntersection>, k: nat, a: Adjustment, snapTol: real)
    requires ValidMath(m) && i < |ws| && k <= |xs| && IndicesBelow(xs, |ws|)
    ensures var line, r := ws[i].centerline, AdjustFrom(m, ws, i, xs, k, a, snapTol, false);
      && r.start == SnapOr(LastSnap(m, xs, k, i, line.start, snapTol), a.start)
      && r.end == SnapOr(LastSnap(m, xs, k, i, line.end, snapTol), a.end)
    decreases |xs| - k
  {
    if k < |xs| {
      SnapWithoutExtension(m, ws, i, xs, k + 1, Step(m, ws, i, xs[k], a, snapTol, false), snapTol);
    }
  }

  /**
   * At a two-wall junction with the extension on, a start that snaps to the junction ends
   * half the other wall's thickness beyond it, measured from the wall's original end.
   */
  lemma StepExtendsStart(m: Math, ws: seq<Wall>, i: nat, x: WallIntersection, a: Adjustment, snapTol: real)
    requires ValidMath(m) && i < |ws| && Below(x.wallIndices, |ws|)
    requires i in x.wallIndices && |x.wallIndices| == 2
    requires DistanceTo(m, ws[i].centerline.start, x.point) < snapTol
    requires var d := DistanceTo(m, x.point, ws[i].centerline.end);
      d > 0.0 && d + ws[Other(x, i)].thickness / 2.0 >= 0.0
    ensures var end := ws[i].centerline.end;
      DistanceTo(m, Step(m, ws, i, x, a, snapTol, true).start, end)
        == DistanceTo(m, x.point, end) + ws[Other(x, i)].thickness / 2.0
  {
    ExtendDistance(m, x.point, ws[i].centerline.end, ws[Other(x, i)].thickness / 2.0);
  }

  /** The same for the end, measured from the wall's original start. */
  lemma StepExtendsEnd(m: Math, ws: seq<Wall>, i: nat, x: WallIntersection, a: Adjustment, snapTol: real)
    requires ValidMath(m) && i < |ws| && Below(x.wallIndices, |ws|)
    requires i in x.wallIndices && |x.wallIndices| == 2
    requires DistanceTo(m, ws[i].centerline.end, x.point) < snapTol
    requires var d := DistanceTo(m, x.point, ws[i].centerline.start);
      d > 0.0 && d + ws[Other(x, i)].thickness / 2.0 >= 0.0
    ensures var start := ws[i].centerline.start;
      DistanceTo(m, Step(m, ws, i, x, a, snapTol, true).end, start)
        == DistanceTo(m, x.point, start) + ws[Other(x, i)].thickness / 2.0
  {
    ExtendDistance(m, x.point, ws[i].centerline.start, ws[Other(x, i)].thickness / 2.0);
  }
}
