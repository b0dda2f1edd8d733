/**
 * The geometry value types every detector works on (points, lines, boxes) and the
 * provisional building elements they produce (grid lines, intersections, grids,
 * walls, columns, slabs), with the small queries the elements answer themselves.
 */
module Models {
  import opened Numeric
  import opened Wrappers

  /** A point in drawing space. */
  datatype Point2D = Point2D(x: real, y: real)

  /** The squared Euclidean distance, the quantity the detectors really compare. */
  function SqDist(p: Point2D, q: Point2D): (r: real)
    ensures r >= 0.0
    ensures p == q ==> r == 0.0
  {
    var dx, dy := p.x - q.x, p.y - q.y;
    MulSigns(dx, dx);
    MulSigns(dy, dy);
    dx * dx + dy * dy
  }

  /** `Point2D.distance_to`: the Euclidean distance. */
  function DistanceTo(m: Math, p: Point2D, q: Point2D): (r: real)
    requires ValidMath(m)
    ensures r >= 0.0 && r * r == SqDist(p, q)
  {
    m.sqrt(SqDist(p, q))
  }

  lemma DistanceSymmetric(m: Math, p: Point2D, q: Point2D)
    requires ValidMath(m)
    ensures DistanceTo(m, p, q) == DistanceTo(m, q, p)
  {
    assert SqDist(p, q) == SqDist(q, p);
  }

  /** The distance from a point to itself is zero. */
  lemma DistanceZero(m: Math, p: Point2D)
    requires ValidMath(m)
    ensures DistanceTo(m, p, p) == 0.0
  {
    SqrtZero(m, SqDist(p, p));
  }

  /** Comparing a distance with a non-negative bound is comparing the squared distance with the bound's square. */
  lemma DistanceLess(m: Math, p: Point2D, q: Point2D, t: real)
    requires ValidMath(m) && t >= 0.0
    ensures DistanceTo(m, p, q) < t <==> SqDist(p, q) < t * t
    ensures DistanceTo(m, p, q) <= t <==> SqDist(p, q) <= t * t
  {
    SqrtLess(m, SqDist(p, q), t);
    SqrtLessEq(m, SqDist(p, q), t);
  }

  /** `Point2D.__eq__`: both coordinates closer than 1e-6. */
  function PointEq(p: Point2D, q: Point2D): (r: bool)
    ensures p == q ==> r
  {
    Abs(p.x - q.x) < 0.000001 && Abs(p.y - q.y) < 0.000001
  }

  lemma PointEqReflexiveSymmetric(p: Point2D, q: Point2D)
    ensures PointEq(p, p)
    ensures PointEq(p, q) <==> PointEq(q, p)
  {
    assert Abs(p.x - q.x) == Abs(q.x - p.x) && Abs(p.y - q.y) == Abs(q.y - p.y);
  }

  /** The tolerance equality is not transitive: three points 0.6e-6 apart chain but the ends differ by 1.2e-6. */
  lemma PointEqNotTransitive()
    ensures var p, q, r := Point2D(0.0, 0.0), Point2D(0.0000006, 0.0), Point2D(0.0000012, 0.0);
      PointEq(p, q) && PointEq(q, r) && !PointEq(p, r)
  {
  }

  /** A line segment in drawing space, with the CAD layer it was drawn on. */
  datatype Line2D = Line2D(start: Point2D, end: Point2D, layer: string)

  const DefaultLayer: string := "0"

  function Reversed(l: Line2D): Line2D
  {
    Line2D(l.end, l.start, l.layer)
  }

  function Midpoint(l: Line2D): Point2D
  {
    Point2D((l.start.x + l.end.x) / 2.0, (l.start.y + l.end.y) / 2.0)
  }

  /** `Line2D.length`: the start-to-end distance. */
  function Length(m: Math, l: Line2D): (r: real)
    requires ValidMath(m)
    ensures r >= 0.0 && r * r == SqDist(l.start, l.end)
  {
    DistanceTo(m, l.start, l.end)
  }

  lemma LengthReversed(m: Math, l: Line2D)
    requires ValidMath(m)
    ensures Length(m, Reversed(l)) == Length(m, l)
  {
    DistanceSymmetric(m, l.start, l.end);
  }

  /** `[l for l in lines if l.length() >= min_length]`: the lines at least `minLength` long, in input order. */
  function LongLines(m: Math, minLength: real, lines: seq<Line2D>): (r: seq<Line2D>)
    requires ValidMath(m)
    ensures |r| <= |lines|
    ensures forall k :: 0 <= k < |r| ==> r[k] in lines && Length(m, r[k]) >= minLength
  {
    if lines == [] then []
    else
      var init := LongLines(m, minLength, lines[..|lines| - 1]);
      var l := lines[|lines| - 1];
      if Length(m, l) >= minLength then init + [l] else init
  }

  /** No long enough line is dropped. */
  lemma {:induction false} LongLinesComplete(m: Math, minLength: real, lines: seq<Line2D>)
    requires ValidMath(m)
    ensures forall l :: l in lines && Length(m, l) >= minLength ==> l in LongLines(m, minLength, lines)
  {
    if lines != [] {
      var init := lines[..|lines| - 1];
      LongLinesComplete(m, minLength, init);
      assert lines == init + [lines[|lines| - 1]];
    }
  }

  /** The filter distributes over concatenation, so it keeps the kept lines in input order, repeats included. */
  lemma {:induction false} LongLinesAppend(m: Math, minLength: real, a: seq<Line2D>, b: seq<Line2D>)
    requires ValidMath(m)
    ensures LongLines(m, minLength, a + b) == LongLines(m, minLength, a) + LongLines(m, minLength, b)
  {
    if b == [] {
      assert a + b == a;
    } else {
      var b0 := b[..|b| - 1];
      LongLinesAppend(m, minLength, a, b0);
      assert (a + b)[..|a + b| - 1] == a + b0;
      assert (a + b)[|a + b| - 1] == b[|b| - 1];
    }
  }

  /** `Line2D.angle`: `atan2(dy, dx)`, in [-pi, pi]. */
  function Angle(m: Math, l: Line2D): (r: real)
    requires ValidMath(m)
    ensures -Pi <= r <= Pi
  {
    m.atan2(l.end.y - l.start.y, l.end.x - l.start.x)
  }

  /** Reversing a line turns the magnitude of its angle from `a` into `pi - a`. */
  lemma AngleReversed(m: Math, l: Line2D)
    requires ValidMath(m) && l.start != l.end
    ensures Abs(Angle(m, Reversed(l))) == Pi - Abs(Angle(m, l))
  {
    var dy, dx := l.end.y - l.start.y, l.end.x - l.start.x;
    assert l.start.y - l.end.y == -dy && l.start.x - l.end.x == -dx;
    assert dx != 0.0 || dy != 0.0;
    assert Abs(m.atan2(-dy, -dx)) == Pi - Abs(m.atan2(dy, dx));
  }

  /** `Line2D.is_horizontal`: the angle is within `tol` of 0 or of +-pi. */
  function IsHorizontal(m: Math, l: Line2D, tol: real): (r: bool)
    requires ValidMath(m)
    ensures r ==> tol > 0.0
    ensures tol > Pi / 2.0 ==> r
  {
    var a := Abs(Angle(m, l));
    a < tol || Abs(a - Pi) < tol
  }

  /** `Line2D.is_vertical`: the angle is within `tol` of +-pi/2. */
  function IsVertical(m: Math, l: Line2D, tol: real): (r: bool)
    requires ValidMath(m)
    ensures r ==> tol > 0.0
    ensures tol > Pi / 2.0 ==> r
  {
    Abs(Abs(Angle(m, l)) - Pi / 2.0) < tol
  }

  /** The orientation tests do not depend on which end a line was drawn from. */
  lemma OrientationReversed(m: Math, l: Line2D, tol: real)
    requires ValidMath(m)
    ensures IsHorizontal(m, Reversed(l), tol) == IsHorizontal(m, l, tol)
    ensures IsVertical(m, Reversed(l), tol) == IsVertical(m, l, tol)
  {
    if l.start != l.end {
      AngleReversed(m, l);
    }
  }

  /** An exactly horizontal segment is horizontal and an exactly vertical one vertical, for every positive tolerance. */
  lemma AxisAlignedOrientation(m: Math, l: Line2D, tol: real)
    requires ValidMath(m) && tol > 0.0
    ensures l.start.y == l.end.y && l.start.x != l.end.x ==>
      IsHorizontal(m, l, tol) && (tol <= Pi / 2.0 ==> !IsVertical(m, l, tol))
    ensures l.start.x == l.end.x && l.start.y != l.end.y ==>
      IsVertical(m, l, tol) && (tol <= Pi / 2.0 ==> !IsHorizontal(m, l, tol))
  {
    var dy, dx := l.end.y - l.start.y, l.end.x - l.start.x;
    if dy == 0.0 && dx != 0.0 {
      assert Angle(m, l) == m.atan2(0.0, dx);
      if dx > 0.0 {
        assert Angle(m, l) == 0.0;
      } else {
        assert Angle(m, l) == Pi;
      }
    }
    if dx == 0.0 && dy != 0.0 {
      assert Angle(m, l) == m.atan2(dy, 0.0);
    }
  }

  /** An axis-aligned box; `min_z`/`max_z` default to 0. */
  datatype BoundingBox = BoundingBox(minX: real, minY: real, maxX: real, maxY: real, minZ: real, maxZ: real)

  function Box2D(minX: real, minY: real, maxX: real, maxY: real): BoundingBox
  {
    BoundingBox(minX, minY, maxX, maxY, 0.0, 0.0)
  }

  /** `BoundingBox.contains_point`: inclusive on all four edges. */
  function ContainsPoint(b: BoundingBox, p: Point2D): (r: bool)
    ensures r ==> b.minX <= b.maxX && b.minY <= b.maxY
  {
    b.minX <= p.x <= b.maxX && b.minY <= p.y <= b.maxY
  }

  /** `BoundingBox.area`: the product of the two side lengths. */
  function Area(b: BoundingBox): (r: real)
    ensures b.minX <= b.maxX && b.minY <= b.maxY ==> r >= 0.0
  {
    MulSigns(b.maxX - b.minX, b.maxY - b.minY);
    (b.maxX - b.minX) * (b.maxY - b.minY)
  }

  /** A box contains some point exactly when it is not inverted, and then it contains its four corners. */
  lemma ContainsCorners(b: BoundingBox)
    ensures (exists p :: ContainsPoint(b, p)) <==> b.minX <= b.maxX && b.minY <= b.maxY
    ensures b.minX <= b.maxX && b.minY <= b.maxY ==>
      && ContainsPoint(b, Point2D(b.minX, b.minY)) && ContainsPoint(b, Point2D(b.maxX, b.minY))
      && ContainsPoint(b, Point2D(b.maxX, b.maxY)) && ContainsPoint(b, Point2D(b.minX, b.maxY))
  {
    if b.minX <= b.maxX && b.minY <= b.maxY {
      assert ContainsPoint(b, Point2D(b.minX, b.minY));
    }
  }

  /** A box that is not inverted has a non-negative area, and a zero area exactly when it is flat. */
  lemma AreaOfWellFormedBox(b: BoundingBox)
    requires b.minX <= b.maxX && b.minY <= b.maxY
    ensures Area(b) >= 0.0
    ensures Area(b) == 0.0 <==> b.minX == b.maxX || b.minY == b.maxY
  {
    var w, h := b.maxX - b.minX, b.maxY - b.minY;
    MulSigns(w, h);
    if w == 0.0 || h == 0.0 {
      assert w * h == 0.0;
    }
  }

  /** The confidence bands of `ConfidenceLevel`. */
  datatype ConfidenceLevel = High | Medium | Low

  const ConfidenceError: string := "Confidence must be between 0.0 and 1.0"

  /** The `confidence` field validator of every provisional element: values outside [0, 1] raise. */
  function ValidateConfidence(v: real): (r: Result<real>)
    ensures r.Success? <==> 0.0 <= v <= 1.0
    ensures r.Success? ==> r.value == v
    ensures r.Failure? ==> r.error == ConfidenceError
  {
    if 0.0 <= v <= 1.0 then Success(v) else Failure(ConfidenceError)
  }

  predicate ValidConfidence(v: real)
  {
    0.0 <= v <= 1.0
  }

  /** `ProvisionalElement.confidence_level`. */
  function LevelOf(confidence: real): (r: ConfidenceLevel)
    ensures r == High <==> confidence >= 0.8
    ensures r == Medium <==> 0.5 <= confidence < 0.8
    ensures r == Low <==> confidence < 0.5
  {
    if confidence >= 0.8 then High
    else if confidence >= 0.5 then Medium
    else Low
  }

  function LevelRank(l: ConfidenceLevel): nat
  {
    match l
    case Low => 0
    case Medium => 1
    case High => 2
  }

  /** A higher confidence never gets a lower band. */
  lemma LevelMonotone(c1: real, c2: real)
    ensures c1 <= c2 ==> LevelRank(LevelOf(c1)) <= LevelRank(LevelOf(c2))
  {
  }

  /**
   * One code point of a Python `str`. Unlike Dafny's `char` it includes the surrogates
   * 0xD800-0xDFFF, which `chr` returns like any other code point.
   */
  newtype CodePoint = c: int | 0 <= c < 0x110000

  /** The text of a grid label, as the code points of the Python string. */
  type Label = seq<CodePoint>

  /** A detected grid axis; `labelText` (the source's `label`) is empty until the grid lines are labelled. */
  datatype GridLine = GridLine(line: Line2D, labelText: Label, isVertical: bool,
                               spacingToNext: Option<real>, confidence: real)

  /** The crossing of one horizontal and one vertical grid line. */
  datatype GridIntersection = GridIntersection(point: Point2D, gridH: Label, gridV: Label, confidence: real)

  /** The label `f"{grid_h}{grid_v}"` a column on the intersection is given. */
  function IntersectionLabel(g: GridIntersection): Label
  {
    g.gridH + g.gridV
  }

  /** Code points of the letters 'A' and 'Z' and the digits '0' and '9'. */
  const LetterA: CodePoint := 65
  const LetterZ: CodePoint := 90
  const Digit0: CodePoint := 48
  const Digit9: CodePoint := 57

  predicate IsLetters(s: Label)
  {
    forall k :: 0 <= k < |s| ==> LetterA <= s[k] <= LetterZ
  }

  predicate IsDigits(s: Label)
  {
    forall k :: 0 <= k < |s| ==> Digit0 <= s[k] <= Digit9
  }

  /** With letter-only row labels and non-empty digit-only column labels, a combined label determines both parts. */
  lemma IntersectionLabelInjective(a: GridIntersection, b: GridIntersection)
    requires IsLetters(a.gridH) && IsLetters(b.gridH)
    requires IsDigits(a.gridV) && IsDigits(b.gridV) && a.gridV != [] && b.gridV != []
    ensures IntersectionLabel(a) == IntersectionLabel(b) <==> a.gridH == b.gridH && a.gridV == b.gridV
  {
    var s, t := IntersectionLabel(a), IntersectionLabel(b);
    if s == t {
      LeadingLettersConcat(a.gridH, a.gridV);
      LeadingLettersConcat(b.gridH, b.gridV);
      assert a.gridH == s[..|a.gridH|] && b.gridH == t[..|b.gridH|];
      assert a.gridV == s[|a.gridH|..] && b.gridV == t[|b.gridH|..];
    }
  }

  /** The number of letters a string starts with. */
  function LeadingLetters(s: Label): nat
  {
    if s == [] || !(LetterA <= s[0] <= LetterZ) then 0 else 1 + LeadingLetters(s[1..])
  }

  lemma {:induction false} LeadingLettersConcat(letters: Label, digits: Label)
    requires IsLetters(letters) && IsDigits(digits) && digits != []
    ensures LeadingLetters(letters + digits) == |letters|
  {
    if letters == [] {
      assert letters + digits == digits;
    } else {
      assert (letters + digits)[1..] == letters[1..] + digits;
      LeadingLettersConcat(letters[1..], digits);
    }
  }

  /** A complete grid; the average spacings are `None` for an axis without positive spacings. */
  datatype BuildingGrid = BuildingGrid(
    horizontalLines: seq<GridLine>,
    verticalLines: seq<GridLine>,
    intersections: seq<GridIntersection>,
    boundingBox: BoundingBox,
    isRegular: bool,
    avgHSpacing: Option<real>,
    avgVSpacing: Option<real>,
    confidence: real)

  predicate Matches(g: GridIntersection, h: Label, v: Label)
  {
    g.gridH == h && g.gridV == v
  }

  /** `BuildingGrid.get_intersection`: the first intersection carrying both labels, or `None`. */
  function GetIntersection(grid: BuildingGrid, h: Label, v: Label): (r: Option<GridIntersection>)
    ensures r.None? <==> forall k :: 0 <= k < |grid.intersections| ==> !Matches(grid.intersections[k], h, v)
    ensures r.Some? ==>
      exists k :: 0 <= k < |grid.intersections| && grid.intersections[k] == r.value &&
        Matches(r.value, h, v) && forall j :: 0 <= j < k ==> !Matches(grid.intersections[j], h, v)
  {
    FirstMatch(grid.intersections, h, v, 0)
  }

  function FirstMatch(xs: seq<GridIntersection>, h: Label, v: Label, from: nat): (r: Option<GridIntersection>)
    requires from <= |xs|
    requires forall j :: 0 <= j < from ==> !Matches(xs[j], h, v)
    ensures r.None? <==> forall k :: 0 <= k < |xs| ==> !Matches(xs[k], h, v)
    ensures r.Some? ==>
      exists k :: 0 <= k < |xs| && xs[k] == r.value &&
        Matches(r.value, h, v) && forall j :: 0 <= j < k ==> !Matches(xs[j], h, v)
    decreases |xs| - from
  {
    if from == |xs| then None
    else if Matches(xs[from], h, v) then Some(xs[from])
    else FirstMatch(xs, h, v, from + 1)
  }

  /** The values the model stores in a wall's `metadata` dictionary. */
  datatype MetaValue = MInt(n: int) | MFlag(flag: bool)

  /** A wall along `centerline`; `height` defaults to 3000 mm. */
  datatype Wall = Wall(
    centerline: Line2D,
    thickness: real,
    height: real,
    isExterior: bool,
    isStructural: bool,
    confidence: real,
    sourceLayer: Option<string>,
    metadata: map<string, MetaValue>)

  const DefaultWallHeight: real := 3000.0

  /** A structural column; `grid_reference` is the label of the intersection it stands on. */
  datatype Column = Column(
    location: Point2D,
    width: real,
    depth: real,
    height: real,
    rotation: real,
    gridReference: Option<Label>,
    confidence: real)

  /** A floor or roof slab over a closed boundary polygon. */
  datatype Slab = Slab(boundary: seq<Point2D>, thickness: real, elevation: real, isRoof: bool, confidence: real)
}
