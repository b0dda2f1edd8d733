/**
 * The metrics of an extracted polyline: perimeter (with the closing edge for closed
 * polylines of three or more vertices), shoelace area, axis-aligned bounding box, and the
 * right-angle test for closed four-vertex polylines.
 */
module PolylineExtraction {
  import opened Numeric
  import opened Models

  /** `PolylineData`: the vertices, whether the polyline is closed, and its layer. */
  datatype PolylineData = PolylineData(points: seq<Point2D>, isClosed: bool, layer: string)

  // ---------------------------------------------------------------- perimeter

  /** The length of the open path through the vertices, edge by edge from the first. */
  function PathLength(m: Math, pts: seq<Point2D>): real
    requires ValidMath(m)
  {
    if |pts| < 2 then 0.0
    else PathLength(m, pts[..|pts| - 1]) + DistanceTo(m, pts[|pts| - 2], pts[|pts| - 1])
  }

  /** `perimeter`: the path length plus the closing edge when closed with more than two vertices. */
  function PerimeterSpec(m: Math, poly: PolylineData): real
    requires ValidMath(m)
  {
    var pts := poly.points;
    if |pts| < 2 then 0.0
    else PathLength(m, pts) + (if poly.isClosed && |pts| > 2 then DistanceTo(m, pts[|pts| - 1], pts[0]) else 0.0)
  }

  lemma {:induction false} PathLengthNonNeg(m: Math, pts: seq<Point2D>)
    requires ValidMath(m)
    ensures PathLength(m, pts) >= 0.0
  {
    if |pts| >= 2 {
      PathLengthNonNeg(m, pts[..|pts| - 1]);
    }
  }

  /** The perimeter is never negative, and closing a polyline never shortens it. */
  lemma PerimeterNonNeg(m: Math, poly: PolylineData)
    requires ValidMath(m)
    ensures PerimeterSpec(m, poly) >= 0.0
    ensures PerimeterSpec(m, poly) >= PerimeterSpec(m, poly.(isClosed := false))
  {
    PathLengthNonNeg(m, poly.points);
  }

  /** Putting a vertex in front adds the edge from it to the old first vertex. */
  lemma {:induction false} PathLengthPrepend(m: Math, x: Point2D, s: seq<Point2D>)
    requires ValidMath(m) && s != []
    ensures PathLength(m, [x] + s) == DistanceTo(m, x, s[0]) + PathLength(m, s)
    decreases |s|
  {
    var t := [x] + s;
    if |s| == 1 {
      assert t[..1] == [x];
    } else {
      var s0 := s[..|s| - 1];
      PathLengthPrepend(m, x, s0);
      assert t[..|t| - 1] == [x] + s0;
      assert t[|t| - 2] == s[|s| - 2];
    }
  }

  function Reverse(s: seq<Point2D>): (r: seq<Point2D>)
    ensures |r| == |s|
  {
    seq(|s|, k requires 0 <= k < |s| => s[|s| - 1 - k])
  }

  /** Walking the vertices backwards gives the same path length. */
  lemma {:induction false} PathLengthReversed(m: Math, pts: seq<Point2D>)
    requires ValidMath(m)
    ensures PathLength(m, Reverse(pts)) == PathLength(m, pts)
  {
    if |pts| >= 2 {
      var init := pts[..|pts| - 1];
      var x := pts[|pts| - 1];
      PathLengthReversed(m, init);
      assert Reverse(pts) == [x] + Reverse(init);
      PathLengthPrepend(m, x, Reverse(init));
      DistanceSymmetric(m, x, init[|init| - 1]);
    }
  }

  /** The perimeter does not depend on the direction the vertices are listed in. */
  lemma PerimeterReversed(m: Math, poly: PolylineData)
    requires ValidMath(m)
    ensures PerimeterSpec(m, poly.(points := Reverse(poly.points))) == PerimeterSpec(m, poly)
  {
    PathLengthReversed(m, poly.points);
    if |poly.points| > 0 {
      DistanceSymmetric(m, poly.points[0], poly.points[|poly.points| - 1]);
    }
  }

  /** `PolylineData.perimeter`. */
  method PolylinePerimeter(m: Math, poly: PolylineData) returns (total: real)
    requires ValidMath(m)
    ensures total == PerimeterSpec(m, poly)
  {
    var pts := poly.points;
    if |pts| < 2 {
      return 0.0;
    }
    total := 0.0;
    var i := 0;
    assert pts[..1] == [pts[0]];
    while i < |pts| - 1
      invariant 0 <= i <= |pts| - 1
      invariant total == PathLength(m, pts[..i + 1])
    {
      assert pts[..i + 2][..i + 1] == pts[..i + 1];
      total := total + DistanceTo(m, pts[i], pts[i + 1]);
      i := i + 1;
    }
    assert pts[..i + 1] == pts;
    if poly.isClosed && |pts| > 2 {
      total := total + DistanceTo(m, pts[|pts| - 1], pts[0]);
    }
  }

  // ---------------------------------------------------------------- area

  /** The shoelace term of edge `i` (to the next vertex, wrapping round). */
  function ShoelaceTerm(pts: seq<Point2D>, i: nat): real
    requires i < |pts|
  {
    var j := (i + 1) % |pts|;
    pts[i].x * pts[j].y - pts[j].x * pts[i].y
  }

  /** The sum of the first `k` shoelace terms. */
  function ShoelaceSum(pts: seq<Point2D>, k: nat): real
    requires k <= |pts|
  {
    if k == 0 then 0.0 else ShoelaceSum(pts, k - 1) + ShoelaceTerm(pts, k - 1)
  }

  /** `area`: half the absolute shoelace sum of a closed polyline of three or more vertices, else 0. */
  function AreaSpec(poly: PolylineData): (r: real)
    ensures r >= 0.0
  {
    var pts := poly.points;
    if !poly.isClosed || |pts| < 3 then 0.0 else Abs(ShoelaceSum(pts, |pts|)) / 2.0
  }

  /** `PolylineData.area`. */
  method PolylineArea(poly: PolylineData) returns (area: real)
    ensures area == AreaSpec(poly)
  {
    var pts := poly.points;
    if !poly.isClosed || |pts| < 3 {
      return 0.0;
    }
    area := 0.0;
    var i := 0;
    while i < |pts|
      invariant 0 <= i <= |pts|
      invariant area == ShoelaceSum(pts, i)
    {
      var j := (i + 1) % |pts|;
      area := area + pts[i].x * pts[j].y;
      area := area - pts[j].x * pts[i].y;
      i := i + 1;
    }
    area := Abs(area) / 2.0;
  }

  /** The closed polyline round the axis-aligned rectangle with corner (x0, y0), width w and height h. */
  function AxisRectangle(x0: real, y0: real, w: real, h: real, layer: string): PolylineData
  {
    PolylineData([Point2D(x0, y0), Point2D(x0 + w, y0), Point2D(x0 + w, y0 + h), Point2D(x0, y0 + h)], true, layer)
  }

  /** The shoelace area of an axis-aligned rectangle is its width times its height. */
  lemma AxisRectangleArea(x0: real, y0: real, w: real, h: real, layer: string)
    requires w >= 0.0 && h >= 0.0
    ensures AreaSpec(AxisRectangle(x0, y0, w, h, layer)) == w * h
  {
    var pts := AxisRectangle(x0, y0, w, h, layer).points;
    assert ShoelaceTerm(pts, 0) == x0 * y0 - (x0 + w) * y0 == -(w * y0);
    assert ShoelaceTerm(pts, 1) == (x0 + w) * (y0 + h) - (x0 + w) * y0 == x0 * h + w * h;
    assert ShoelaceTerm(pts, 2) == (x0 + w) * (y0 + h) - x0 * (y0 + h) == w * y0 + w * h;
    assert ShoelaceTerm(pts, 3) == x0 * y0 - x0 * (y0 + h) == -(x0 * h);
    assert ShoelaceSum(pts, 1) == -(w * y0);
    assert ShoelaceSum(pts, 2) == x0 * h + w * h - w * y0;
    assert ShoelaceSum(pts, 3) == x0 * h + 2.0 * (w * h);
    assert ShoelaceSum(pts, 4) == 2.0 * (w * h);
    MulSigns(w, h);
  }

  /** An edge parallel to an axis is as long as its extent along that axis. */
  lemma AxisEdgeLength(m: Math, p: Point2D, q: Point2D)
    requires ValidMath(m) && (p.y == q.y || p.x == q.x)
    ensures DistanceTo(m, p, q) == Abs(p.x - q.x) + Abs(p.y - q.y)
  {
    var dx, dy := p.x - q.x, p.y - q.y;
    if p.y == q.y {
      assert SqDist(p, q) == dx * dx;
      SqrtOfSquare(m, dx);
    } else {
      assert SqDist(p, q) == dy * dy;
      SqrtOfSquare(m, dy);
    }
  }

  /** The perimeter of an axis-aligned rectangle is twice its width plus its height. */
  lemma AxisRectanglePerimeter(m: Math, x0: real, y0: real, w: real, h: real, layer: string)
    requires ValidMath(m) && w >= 0.0 && h >= 0.0
    ensures PerimeterSpec(m, AxisRectangle(x0, y0, w, h, layer)) == 2.0 * (w + h)
  {
    var pts := AxisRectangle(x0, y0, w, h, layer).points;
    AxisEdgeLength(m, pts[0], pts[1]);
    AxisEdgeLength(m, pts[1], pts[2]);
    AxisEdgeLength(m, pts[2], pts[3]);
    AxisEdgeLength(m, pts[3], pts[0]);
    assert pts[..3][..2] == pts[..2] && pts[..2][..1] == pts[..1];
    assert PathLength(m, pts[..2]) == w;
    assert PathLength(m, pts[..3]) == w + h;
    assert pts[..4] == pts;
    assert PathLength(m, pts) == 2.0 * w + h;
  }

  // ---------------------------------------------------------------- bounding box

  function Xs(pts: seq<Point2D>): (r: seq<real>)
    ensures |r| == |pts| && forall k :: 0 <= k < |pts| ==> r[k] == pts[k].x
  {
    seq(|pts|, k requires 0 <= k < |pts| => pts[k].x)
  }

  function Ys(pts: seq<Point2D>): (r: seq<real>)
    ensures |r| == |pts| && forall k :: 0 <= k < |pts| ==> r[k] == pts[k].y
  {
    seq(|pts|, k requires 0 <= k < |pts| => pts[k].y)
  }

  /**
   * `bounding_box`: (min_x, min_y, max_x, max_y), all zero without vertices. Otherwise every
   * vertex lies inside and each bound is some vertex's coordinate.
   */
  function BoundingBoxOf(poly: PolylineData): (r: (real, real, real, real))
    ensures poly.points == [] ==> r == (0.0, 0.0, 0.0, 0.0)
    ensures poly.points != [] ==> r.0 <= r.2 && r.1 <= r.3
    ensures forall k :: 0 <= k < |poly.points| ==>
      r.0 <= poly.points[k].x <= r.2 && r.1 <= poly.points[k].y <= r.3
    ensures poly.points != [] ==>
      r.0 in Xs(poly.points) && r.2 in Xs(poly.points) && r.1 in Ys(poly.points) && r.3 in Ys(poly.points)
  {
    var pts := poly.points;
    if pts == [] then (0.0, 0.0, 0.0, 0.0)
    else
      assert Xs(pts)[0] <= SeqMax(Xs(pts)) && Ys(pts)[0] <= SeqMax(Ys(pts));
      (SeqMin(Xs(pts)), SeqMin(Ys(pts)), SeqMax(Xs(pts)), SeqMax(Ys(pts)))
  }

  // ---------------------------------------------------------------- right angles

  /** The squared lengths of the two edges at corner `p2` and their dot product. */
  function EdgeSquares(p1: Point2D, p2: Point2D, p3: Point2D): (real, real, real)
  {
    var v1x, v1y := p2.x - p1.x, p2.y - p1.y;
    var v2x, v2y := p3.x - p2.x, p3.y - p2.y;
    (v1x * v1x + v1y * v1y, v2x * v2x + v2y * v2y, v1x * v2x + v1y * v2y)
  }

  lemma EdgeSquaresNonNeg(p1: Point2D, p2: Point2D, p3: Point2D)
    ensures EdgeSquares(p1, p2, p3).0 >= 0.0 && EdgeSquares(p1, p2, p3).1 >= 0.0
  {
    MulSigns(p2.x - p1.x, p2.x - p1.x);
    MulSigns(p2.y - p1.y, p2.y - p1.y);
    MulSigns(p3.x - p2.x, p3.x - p2.x);
    MulSigns(p3.y - p2.y, p3.y - p2.y);
  }

  /** Corner `p2` passes: an edge of zero length, or |cos| of the angle between the edges at most 0.1. */
  predicate RightCorner(m: Math, p1: Point2D, p2: Point2D, p3: Point2D)
    requires ValidMath(m)
  {
    var e := EdgeSquares(p1, p2, p3);
    CosineSmall(m.sqrt(e.0), m.sqrt(e.1), e.2)
  }

  /** The cosine test on the edge lengths `len1`, `len2` and the dot product `dot`. */
  predicate CosineSmall(len1: real, len2: real, dot: real)
  {
    !(len1 > 0.0 && len2 > 0.0) || Abs(dot / (len1 * len2)) <= 0.1
  }

  /** Corner `i` of a four-vertex polyline: the vertices i, i + 1 and i + 2, wrapping round. */
  predicate CornerPasses(m: Math, pts: seq<Point2D>, i: nat)
    requires ValidMath(m) && |pts| == 4 && i < 4
  {
    RightCorner(m, pts[i], pts[(i + 1) % 4], pts[(i + 2) % 4])
  }

  /** `is_rectangular`: closed, exactly four vertices, and every corner passes. */
  predicate IsRectangularSpec(m: Math, poly: PolylineData)
    requires ValidMath(m)
  {
    && poly.isClosed && |poly.points| == 4
    && forall i: nat :: i < 4 ==> CornerPasses(m, poly.points, i)
  }

  /** The corner test of one loop iteration of `is_rectangular`: edge lengths, then the cosine. */
  method CheckCorner(m: Math, p1: Point2D, p2: Point2D, p3: Point2D) returns (ok: bool)
    requires ValidMath(m)
    ensures ok == RightCorner(m, p1, p2, p3)
  {
    var e := EdgeSquares(p1, p2, p3);
    var len1 := m.sqrt(e.0);
    var len2 := m.sqrt(e.1);
    ok := CheckCosine(len1, len2, e.2);
  }

  /** The bound on the cosine, tested only when both lengths are positive. */
  method CheckCosine(len1: real, len2: real, dot: real) returns (ok: bool)
    ensures ok == CosineSmall(len1, len2, dot)
  {
    ok := true;
    if len1 > 0.0 && len2 > 0.0 {
      MulSigns(len1, len2);
      var cosAngle := dot / (len1 * len2);
      if Abs(cosAngle) > 0.1 {
        ok := false;
      }
    }
  }

  /** The default of `is_rectangular`'s `tolerance` argument, in mm. */
  const DefaultRectangularTolerance: real := 100.0

  /** `PolylineData.is_rectangular`; the tolerance argument is accepted and not used. */
  method IsRectangular(m: Math, poly: PolylineData, tolerance: real) returns (r: bool)
    requires ValidMath(m)
    ensures r == IsRectangularSpec(m, poly)
  {
    if !poly.isClosed || |poly.points| != 4 {
      return false;
    }
    var pts := poly.points;
    var i := 0;
    while i < 4
      invariant 0 <= i <= 4
      invariant forall k: nat :: k < i ==> CornerPasses(m, pts, k)
    {
      var ok := CheckCorner(m, pts[i], pts[(i + 1) % 4], pts[(i + 2) % 4]);
      if !ok {
        assert !CornerPasses(m, pts, i);
        return false;
      }
      i := i + 1;
    }
    return true;
  }

  /** `|c * l| == |c| * l` for a positive `l`. */
  lemma AbsScaled(c: real, l: real)
    requires l > 0.0
    ensures Abs(c * l) == Abs(c) * l
  {
    if c < 0.0 {
      MulLt(c, 0.0, l);
    } else {
      MulLe(0.0, c, l);
    }
  }

  /** |d / l| <= 0.1 exactly when |d| <= 0.1 * l, for a positive l. */
  lemma CosineBound(d: real, l: real)
    requires l > 0.0
    ensures Abs(d / l) <= 0.1 <==> Abs(d) <= 0.1 * l
  {
    var c := d / l;
    assert d == c * l;
    AbsScaled(c, l);
    if Abs(c) <= 0.1 {
      MulLe(Abs(c), 0.1, l);
    } else {
      MulLt(0.1, Abs(c), l);
    }
  }

  /** For a non-negative bound b, |d| <= b exactly when d^2 <= b^2. */
  lemma AbsSquareBound(d: real, b: real)
    requires b >= 0.0
    ensures Abs(d) <= b <==> d * d <= b * b
  {
    assert Abs(d) * Abs(d) == d * d;
    if Abs(d) <= b {
      SquareLe(Abs(d), b);
    } else {
      SquareLess(b, Abs(d));
    }
  }

  /** The product of two roots squares to the product of the radicands. */
  lemma ProductOfRoots(l1: real, l2: real, a: real, b: real)
    requires l1 * l1 == a && l2 * l2 == b
    ensures (l1 * l2) * (l1 * l2) == a * b
  {
    assert (l1 * l2) * (l1 * l2) == (l1 * l1) * (l2 * l2);
  }

  /** The cosine test on the radicands, for positive lengths. */
  lemma CosineSquared(d: real, a: real, b: real, l1: real, l2: real)
    requires l1 > 0.0 && l2 > 0.0 && l1 * l1 == a && l2 * l2 == b
    ensures CosineSmall(l1, l2, d) <==> d * d <= 0.01 * (a * b)
  {
    var l := l1 * l2;
    MulSigns(l1, l2);
    ProductOfRoots(l1, l2, a, b);
    CosineBound(d, l);
    AbsSquareBound(d, 0.1 * l);
    assert (0.1 * l) * (0.1 * l) == 0.01 * (l * l);
  }

  /**
   * The corner test without square roots: an edge of zero length, or
   * dot^2 <= 0.01 * |v1|^2 * |v2|^2.
   */
  lemma RightCornerSquared(m: Math, p1: Point2D, p2: Point2D, p3: Point2D, a: real, b: real, dot: real)
    requires ValidMath(m) && EdgeSquares(p1, p2, p3) == (a, b, dot)
    ensures RightCorner(m, p1, p2, p3) <==> (a == 0.0 || b == 0.0 || dot * dot <= 0.01 * (a * b))
  {
    EdgeSquaresNonNeg(p1, p2, p3);
    CosineSmallSquared(m, a, b, dot);
  }

  lemma CosineSmallSquared(m: Math, a: real, b: real, dot: real)
    requires ValidMath(m) && a >= 0.0 && b >= 0.0
    ensures CosineSmall(m.sqrt(a), m.sqrt(b), dot) <==> (a == 0.0 || b == 0.0 || dot * dot <= 0.01 * (a * b))
  {
    SqrtNonNeg(m, a);
    SqrtNonNeg(m, b);
    SqrtZero(m, a);
    SqrtZero(m, b);
    var len1, len2 := m.sqrt(a), m.sqrt(b);
    if len1 > 0.0 && len2 > 0.0 {
      CosineSquared(dot, a, b, len1, len2);
    }
  }

  /** Every axis-aligned rectangle passes the test, degenerate ones included. */
  lemma AxisRectangleIsRectangular(m: Math, x0: real, y0: real, w: real, h: real, layer: string)
    requires ValidMath(m)
    ensures IsRectangularSpec(m, AxisRectangle(x0, y0, w, h, layer))
  {
    var pts := AxisRectangle(x0, y0, w, h, layer).points;
    assert pts[(0 + 1) % 4] == pts[1] && pts[(0 + 2) % 4] == pts[2];
    assert pts[(1 + 1) % 4] == pts[2] && pts[(1 + 2) % 4] == pts[3];
    assert pts[(2 + 1) % 4] == pts[3] && pts[(2 + 2) % 4] == pts[0];
    assert pts[(3 + 1) % 4] == pts[0] && pts[(3 + 2) % 4] == pts[1];
    PerpendicularCorner(m, pts[0], pts[1], pts[2]);
    PerpendicularCorner(m, pts[1], pts[2], pts[3]);
    PerpendicularCorner(m, pts[2], pts[3], pts[0]);
    PerpendicularCorner(m, pts[3], pts[0], pts[1]);
    assert CornerPasses(m, pts, 0) && CornerPasses(m, pts, 1) && CornerPasses(m, pts, 2) && CornerPasses(m, pts, 3);
  }

  /** A corner whose edges are perpendicular passes. */
  lemma PerpendicularCorner(m: Math, p1: Point2D, p2: Point2D, p3: Point2D)
    requires ValidMath(m)
    requires (p1.x == p2.x && p2.y == p3.y) || (p1.y == p2.y && p2.x == p3.x)
    ensures RightCorner(m, p1, p2, p3)
  {
    var e := EdgeSquares(p1, p2, p3);
    if p1.x == p2.x && p2.y == p3.y {
      assert (p2.x - p1.x) * (p3.x - p2.x) == 0.0 && (p2.y - p1.y) * (p3.y - p2.y) == 0.0;
    } else {
      assert (p2.x - p1.x) * (p3.x - p2.x) == 0.0 && (p2.y - p1.y) * (p3.y - p2.y) == 0.0;
    }
    assert e.2 == 0.0;
    RightCornerSquared(m, p1, p2, p3, e.0, e.1, e.2);
  }

  /** A closed four-vertex polyline with a 45-degree corner at (1, 1) fails the test. */
  lemma SlantedQuadNotRectangular(m: Math)
    requires ValidMath(m)
    ensures !IsRectangularSpec(m, PolylineData([Point2D(0.0, 0.0), Point2D(1.0, 0.0), Point2D(1.0, 1.0), Point2D(0.0, 2.0)], true, ""))
  {
    var pts := [Point2D(0.0, 0.0), Point2D(1.0, 0.0), Point2D(1.0, 1.0), Point2D(0.0, 2.0)];
    assert EdgeSquares(pts[1], pts[2], pts[3]) == (1.0, 2.0, 1.0);
    RightCornerSquared(m, pts[1], pts[2], pts[3], 1.0, 2.0, 1.0);
    assert !CornerPasses(m, pts, 1);
  }
}
