/**
 * Building-grid detection: long lines are split into horizontal and vertical sets,
 * each set is sorted by position and scored against its median spacing, the lines are
 * labelled (letters for rows, numbers for columns), every row is crossed with every
 * column, and the grid gets a regularity flag, an overall confidence and a bounding box.
 */
module GridDetection {
  import opened Numeric
  import opened Wrappers
  import opened Models
  import opened Sorting

  /** The detector's tuning parameters. */
  datatype GridDetector = GridDetector(minLineLength: real, angleTolerance: real, spacingTolerance: real, minGridLines: int)

  const DefaultDetector: GridDetector := GridDetector(1000.0, 0.087, 0.15, 2)

  /** The message of the `ZeroDivisionError` Python raises for `x / 0.0`. */
  const ZeroDivision: string := "float division by zero"

  // ---------------------------------------------------------------- orientation

  /** The lines the horizontal test accepts, in input order. */
  function HorizontalOf(m: Math, tol: real, lines: seq<Line2D>): (r: seq<Line2D>)
    requires ValidMath(m)
    ensures |r| <= |lines|
    ensures forall k :: 0 <= k < |r| ==> r[k] in lines && IsHorizontal(m, r[k], tol)
  {
    if lines == [] then []
    else
      var init := HorizontalOf(m, tol, lines[..|lines| - 1]);
      var l := lines[|lines| - 1];
      if IsHorizontal(m, l, tol) then init + [l] else init
  }

  /** The lines the horizontal test rejects and the vertical test accepts, in input order. */
  function VerticalOf(m: Math, tol: real, lines: seq<Line2D>): (r: seq<Line2D>)
    requires ValidMath(m)
    ensures |r| <= |lines|
    ensures forall k :: 0 <= k < |r| ==> r[k] in lines && IsVertical(m, r[k], tol) && !IsHorizontal(m, r[k], tol)
  {
    if lines == [] then []
    else
      var init := VerticalOf(m, tol, lines[..|lines| - 1]);
      var l := lines[|lines| - 1];
      if !IsHorizontal(m, l, tol) && IsVertical(m, l, tol) then init + [l] else init
  }

  /** Both groupings distribute over concatenation, so each keeps its lines in input order, repeats included. */
  lemma ClusterAppend(m: Math, tol: real, a: seq<Line2D>, b: seq<Line2D>)
    requires ValidMath(m)
    ensures HorizontalOf(m, tol, a + b) == HorizontalOf(m, tol, a) + HorizontalOf(m, tol, b)
    ensures VerticalOf(m, tol, a + b) == VerticalOf(m, tol, a) + VerticalOf(m, tol, b)
  {
    HorizontalAppend(m, tol, a, b);
    VerticalAppend(m, tol, a, b);
  }

  lemma {:induction false} HorizontalAppend(m: Math, tol: real, a: seq<Line2D>, b: seq<Line2D>)
    requires ValidMath(m)
    ensures HorizontalOf(m, tol, a + b) == HorizontalOf(m, tol, a) + HorizontalOf(m, tol, b)
  {
    if b == [] {
      assert a + b == a;
    } else {
      var b0, x := b[..|b| - 1], b[|b| - 1];
      HorizontalAppend(m, tol, a, b0);
      HorizontalSnoc(m, tol, a + b0, x);
      HorizontalSnoc(m, tol, b0, x);
      SnocParts(a, b);
      ConcatAssoc(HorizontalOf(m, tol, a), HorizontalOf(m, tol, b0), if IsHorizontal(m, x, tol) then [x] else []);
    }
  }

  lemma HorizontalSnoc(m: Math, tol: real, s: seq<Line2D>, x: Line2D)
    requires ValidMath(m)
    ensures HorizontalOf(m, tol, s + [x]) == HorizontalOf(m, tol, s) + (if IsHorizontal(m, x, tol) then [x] else [])
  {
    assert (s + [x])[..|s|] == s;
  }

  lemma {:induction false} VerticalAppend(m: Math, tol: real, a: seq<Line2D>, b: seq<Line2D>)
    requires ValidMath(m)
    ensures VerticalOf(m, tol, a + b) == VerticalOf(m, tol, a) + VerticalOf(m, tol, b)
  {
    if b == [] {
      assert a + b == a;
    } else {
      var b0, x := b[..|b| - 1], b[|b| - 1];
      VerticalAppend(m, tol, a, b0);
      VerticalSnoc(m, tol, a + b0, x);
      VerticalSnoc(m, tol, b0, x);
      SnocParts(a, b);
      ConcatAssoc(VerticalOf(m, tol, a), VerticalOf(m, tol, b0), if !IsHorizontal(m, x, tol) && IsVertical(m, x, tol) then [x] else []);
    }
  }

  lemma VerticalSnoc(m: Math, tol: real, s: seq<Line2D>, x: Line2D)
    requires ValidMath(m)
    ensures VerticalOf(m, tol, s + [x]) == VerticalOf(m, tol, s) + (if !IsHorizontal(m, x, tol) && IsVertical(m, x, tol) then [x] else [])
  {
    assert (s + [x])[..|s|] == s;
  }

  /** Every input line lands in exactly one of the two sets when it passes either test, and in neither otherwise. */
  lemma ClusterPartition(m: Math, tol: real, lines: seq<Line2D>)
    requires ValidMath(m)
    ensures |HorizontalOf(m, tol, lines)| + |VerticalOf(m, tol, lines)| <= |lines|
    ensures forall k :: 0 <= k < |lines| && IsHorizontal(m, lines[k], tol) ==> lines[k] in HorizontalOf(m, tol, lines)
    ensures forall k :: 0 <= k < |lines| && !IsHorizontal(m, lines[k], tol) && IsVertical(m, lines[k], tol) ==>
      lines[k] in VerticalOf(m, tol, lines)
    ensures forall l :: l in HorizontalOf(m, tol, lines) ==> l !in VerticalOf(m, tol, lines)
  {
    ClusterSizes(m, tol, lines);
    ClusterComplete(m, tol, lines);
  }

  lemma {:induction false} ClusterSizes(m: Math, tol: real, lines: seq<Line2D>)
    requires ValidMath(m)
    ensures |HorizontalOf(m, tol, lines)| + |VerticalOf(m, tol, lines)| <= |lines|
  {
    if lines != [] {
      ClusterSizes(m, tol, lines[..|lines| - 1]);
    }
  }

  lemma ClusterComplete(m: Math, tol: real, lines: seq<Line2D>)
    requires ValidMath(m)
    ensures forall k :: 0 <= k < |lines| && IsHorizontal(m, lines[k], tol) ==> lines[k] in HorizontalOf(m, tol, lines)
    ensures forall k :: 0 <= k < |lines| && !IsHorizontal(m, lines[k], tol) && IsVertical(m, lines[k], tol) ==>
      lines[k] in VerticalOf(m, tol, lines)
  {
    forall k | 0 <= k < |lines| && IsHorizontal(m, lines[k], tol)
      ensures lines[k] in HorizontalOf(m, tol, lines)
    {
      HorizontalKept(m, tol, lines, k);
    }
    forall k | 0 <= k < |lines| && !IsHorizontal(m, lines[k], tol) && IsVertical(m, lines[k], tol)
      ensures lines[k] in VerticalOf(m, tol, lines)
    {
      VerticalKept(m, tol, lines, k);
    }
  }

  lemma {:induction false} HorizontalKept(m: Math, tol: real, lines: seq<Line2D>, k: nat)
    requires ValidMath(m) && k < |lines| && IsHorizontal(m, lines[k], tol)
    ensures lines[k] in HorizontalOf(m, tol, lines)
  {
    var init := lines[..|lines| - 1];
    if k < |init| {
      assert lines[k] == init[k];
      HorizontalKept(m, tol, init, k);
    }
  }

  lemma {:induction false} VerticalKept(m: Math, tol: real, lines: seq<Line2D>, k: nat)
    requires ValidMath(m) && k < |lines| && !IsHorizontal(m, lines[k], tol) && IsVertical(m, lines[k], tol)
    ensures lines[k] in VerticalOf(m, tol, lines)
  {
    var init := lines[..|lines| - 1];
    if k < |init| {
      assert lines[k] == init[k];
      VerticalKept(m, tol, init, k);
    }
  }

  /** `_cluster_by_orientation`: one pass that appends each line to the first set whose test it passes. */
  method ClusterByOrientation(m: Math, tol: real, lines: seq<Line2D>) returns (horizontal: seq<Line2D>, vertical: seq<Line2D>)
    requires ValidMath(m)
    ensures horizontal == HorizontalOf(m, tol, lines)
    ensures vertical == VerticalOf(m, tol, lines)
  {
    horizontal, vertical := [], [];
    var i := 0;
    while i < |lines|
      invariant 0 <= i <= |lines|
      invariant horizontal == HorizontalOf(m, tol, lines[..i])
      invariant vertical == VerticalOf(m, tol, lines[..i])
    {
      var line := lines[i];
      assert lines[..i + 1][..i] == lines[..i];
      if IsHorizontal(m, line, tol) {
        horizontal := horizontal + [line];
      } else if IsVertical(m, line, tol) {
        vertical := vertical + [line];
      }
      i := i + 1;
    }
    assert lines[..i] == lines;
  }

  // ---------------------------------------------------------------- grid lines of one axis

  /** The position of a line across its axis: mid-Y of a horizontal line, mid-X of a vertical one. */
  function Position(l: Line2D, isVertical: bool): real
  {
    if isVertical then (l.start.x + l.end.x) / 2.0 else (l.start.y + l.end.y) / 2.0
  }

  function PositionPairs(lines: seq<Line2D>, isVertical: bool): (r: seq<(real, Line2D)>)
    ensures |r| == |lines|
    ensures forall k :: 0 <= k < |r| ==> r[k] == (Position(lines[k], isVertical), lines[k])
  {
    seq(|lines|, k requires 0 <= k < |lines| => (Position(lines[k], isVertical), lines[k]))
  }

  function PairKey(p: (real, Line2D)): real
  {
    p.0
  }

  /** `positions.sort(key=lambda x: x[0])` on the (position, line) pairs. */
  function SortedPositions(lines: seq<Line2D>, isVertical: bool): seq<(real, Line2D)>
  {
    SortBy(PositionPairs(lines, isVertical), PairKey)
  }

  /** The gaps between consecutive sorted positions. */
  function Spacings(ps: seq<(real, Line2D)>): (r: seq<real>)
    ensures |ps| >= 1 ==> |r| == |ps| - 1
    ensures |ps| <= 1 ==> r == []
  {
    if |ps| <= 1 then []
    else seq(|ps| - 1, k requires 0 <= k < |ps| - 1 => Abs(ps[k + 1].0 - ps[k].0))
  }

  /** `_find_dominant_spacing`: 0 for no gaps, the only gap, or the median; so it lies between the smallest and the largest gap. */
  function DominantSpacing(spacings: seq<real>): (r: real)
    ensures spacings == [] ==> r == 0.0
    ensures spacings != [] ==> SeqMin(spacings) <= r <= SeqMax(spacings)
  {
    if spacings == [] then 0.0
    else if |spacings| == 1 then spacings[0]
    else MedianBetween(spacings); Median(spacings)
  }

  /** The relative deviation of a gap from the dominant spacing. */
  function Deviation(s: real, dominant: real): real
    requires dominant != 0.0
  {
    Abs(s - dominant) / dominant
  }

  /** The confidence of the i-th sorted line: one minus its deviation (the mean of both for inner lines), at least 0.5. */
  function LineConfidence(spacings: seq<real>, dominant: real, i: nat, n: nat): real
    requires dominant != 0.0 && n == |spacings| + 1 && i < n
  {
    if i == 0 then
      if i < |spacings| then Max(0.5, 1.0 - Deviation(spacings[i], dominant)) else 0.7
    else if i == n - 1 then Max(0.5, 1.0 - Deviation(spacings[i - 1], dominant))
    else Max(0.5, 1.0 - (Deviation(spacings[i - 1], dominant) + Deviation(spacings[i], dominant)) / 2.0)
  }

  function MakeGridLine(ps: seq<(real, Line2D)>, spacings: seq<real>, dominant: real, i: nat, isVertical: bool): GridLine
    requires dominant != 0.0 && |ps| == |spacings| + 1 && i < |ps|
  {
    GridLine(ps[i].1, [], isVertical, if i < |spacings| then Some(spacings[i]) else None,
             LineConfidence(spacings, dominant, i, |ps|))
  }

  /** `_detect_grid_lines`: the scored, unlabelled grid lines of one axis, or the division by a zero dominant spacing. */
  function GridLinesSpec(lines: seq<Line2D>, isVertical: bool): (r: Result<seq<GridLine>>)
    ensures r.Success? ==> r.value == [] || |r.value| == |lines|
  {
    if lines == [] then Success([])
    else
      var ps := SortedPositions(lines, isVertical);
      var spacings := Spacings(ps);
      if spacings == [] then Success([])
      else
        var dominant := DominantSpacing(spacings);
        if dominant == 0.0 then Failure(ZeroDivision)
        else Success(ScoreAll(ps, spacings, dominant, isVertical))
  }

  /** One scored grid line per sorted pair, in order. */
  function ScoreAll(ps: seq<(real, Line2D)>, spacings: seq<real>, dominant: real, isVertical: bool): (r: seq<GridLine>)
    requires dominant != 0.0 && |ps| == |spacings| + 1
    ensures |r| == |ps|
  {
    seq(|ps|, i requires 0 <= i < |ps| => MakeGridLine(ps, spacings, dominant, i, isVertical))
  }

  method DetectGridLines(lines: seq<Line2D>, isVertical: bool) returns (r: Result<seq<GridLine>>)
    ensures r == GridLinesSpec(lines, isVertical)
  {
    if |lines| == 0 {
      return Success([]);
    }
    var positions := CollectPositions(lines, isVertical);
    positions := SortBy(positions, PairKey);
    var spacings := ConsecutiveSpacings(positions);
    if |spacings| == 0 {
      return Success([]);
    }
    var dominant := DominantSpacing(spacings);
    if dominant == 0.0 {
      return Failure(ZeroDivision);
    }
    var gridLines := ScoreLines(positions, spacings, dominant, isVertical);
    return Success(gridLines);
  }

  /** The first loop of `_detect_grid_lines`: each line with its position. */
  method CollectPositions(lines: seq<Line2D>, isVertical: bool) returns (positions: seq<(real, Line2D)>)
    ensures positions == PositionPairs(lines, isVertical)
  {
    positions := [];
    var i := 0;
    while i < |lines|
      invariant 0 <= i <= |lines|
      invariant positions == PositionPairs(lines[..i], isVertical)
    {
      positions := positions + [(Position(lines[i], isVertical), lines[i])];
      i := i + 1;
    }
    assert lines[..i] == lines;
  }

  /** The second loop: the absolute gaps between neighbours. */
  method ConsecutiveSpacings(positions: seq<(real, Line2D)>) returns (spacings: seq<real>)
    ensures spacings == Spacings(positions)
  {
    spacings := [];
    var i := 0;
    while i < |positions| - 1
      invariant 0 <= i <= if |positions| == 0 then 0 else |positions| - 1
      invariant |spacings| == i
      invariant forall k :: 0 <= k < i ==> spacings[k] == Abs(positions[k + 1].0 - positions[k].0)
    {
      spacings := spacings + [Abs(positions[i + 1].0 - positions[i].0)];
      i := i + 1;
    }
  }

  /** The third loop: a grid line with its confidence and `spacing_to_next` for every sorted line. */
  method ScoreLines(positions: seq<(real, Line2D)>, spacings: seq<real>, dominant: real, isVertical: bool)
    returns (gridLines: seq<GridLine>)
    requires dominant != 0.0 && |positions| == |spacings| + 1
    ensures gridLines == ScoreAll(positions, spacings, dominant, isVertical)
  {
    gridLines := [];
    var i := 0;
    while i < |positions|
      invariant 0 <= i <= |positions|
      invariant |gridLines| == i
      invariant forall k :: 0 <= k < i ==> gridLines[k] == MakeGridLine(positions, spacings, dominant, k, isVertical)
    {
      var confidence: real;
      if i == 0 {
        if i < |spacings| {
          var deviation := Abs(spacings[i] - dominant) / dominant;
          confidence := Max(0.5, 1.0 - deviation);
        } else {
          confidence := 0.7;
        }
      } else if i == |positions| - 1 {
        var deviation := Abs(spacings[i - 1] - dominant) / dominant;
        confidence := Max(0.5, 1.0 - deviation);
      } else {
        var prevDeviation := Abs(spacings[i - 1] - dominant) / dominant;
        var nextDeviation := Abs(spacings[i] - dominant) / dominant;
        var avgDeviation := (prevDeviation + nextDeviation) / 2.0;
        confidence := Max(0.5, 1.0 - avgDeviation);
      }
      assert confidence == LineConfidence(spacings, dominant, i, |positions|);
      var spacingToNext := if i < |spacings| then Some(spacings[i]) else None;
      gridLines := gridLines + [GridLine(positions[i].1, [], isVertical, spacingToNext, confidence)];
      i := i + 1;
    }
  }

  /** Pairs built by `PositionPairs` and permuted by the sort still carry each line's own position. */
  lemma SortedPositionsFaithful(lines: seq<Line2D>, isVertical: bool)
    ensures var ps := SortedPositions(lines, isVertical);
      && |ps| == |lines|
      && (forall k :: 0 <= k < |ps| ==> ps[k].0 == Position(ps[k].1, isVertical) && ps[k].1 in lines)
      && (forall i, j :: 0 <= i < j < |ps| ==> ps[i].0 <= ps[j].0)
      && multiset(ps) == multiset(PositionPairs(lines, isVertical))
  {
    var pairs := PositionPairs(lines, isVertical);
    var ps := SortedPositions(lines, isVertical);
    SortBySorted(pairs, PairKey);
    PermutationMembers(ps, pairs);
    forall k | 0 <= k < |ps| ensures ps[k].0 == Position(ps[k].1, isVertical) && ps[k].1 in lines {
      var j :| 0 <= j < |pairs| && pairs[j] == ps[k];
      assert ps[k].1 == lines[j];
    }
    assert forall i, j :: 0 <= i < j < |ps| ==> PairKey(ps[i]) <= PairKey(ps[j]);
  }

  /** The deviation of a non-negative gap from a positive dominant spacing is non-negative. */
  lemma DeviationNonNegative(s: real, dominant: real)
    requires dominant > 0.0
    ensures Deviation(s, dominant) >= 0.0
  {
    var q := Deviation(s, dominant);
    assert q * dominant == Abs(s - dominant);
    if q < 0.0 {
      MulLt(q, 0.0, dominant);
    }
  }

  /** Fewer than two lines give no grid lines, and only a zero dominant spacing makes `_detect_grid_lines` fail. */
  lemma GridLinesOutcome(lines: seq<Line2D>, isVertical: bool)
    ensures |lines| < 2 ==> GridLinesSpec(lines, isVertical) == Success([])
    ensures GridLinesSpec(lines, isVertical).Failure? <==>
      |lines| >= 2 && DominantSpacing(Spacings(SortedPositions(lines, isVertical))) == 0.0
    ensures GridLinesSpec(lines, isVertical).Success? && |lines| >= 2 ==> |GridLinesSpec(lines, isVertical).value| == |lines|
  {
  }

  /**
   * Scoring pairs sorted by position keeps their lines in that order; `spacing_to_next` is the gap
   * to the next line, none for the last.
   */
  lemma ScoreAllOrdered(ps: seq<(real, Line2D)>, dominant: real, isVertical: bool, g: seq<GridLine>)
    requires |ps| >= 2 && dominant != 0.0 && g == ScoreAll(ps, Spacings(ps), dominant, isVertical)
    requires forall k :: 0 <= k < |ps| ==> ps[k].0 == Position(ps[k].1, isVertical)
    requires forall i, j :: 0 <= i < j < |ps| ==> ps[i].0 <= ps[j].0
    ensures forall k :: 0 <= k < |g| ==> g[k].line == ps[k].1 && g[k].isVertical == isVertical && g[k].labelText == []
    ensures forall k :: 0 <= k < |g| - 1 ==>
      g[k].spacingToNext == Some(Position(g[k + 1].line, isVertical) - Position(g[k].line, isVertical))
    ensures g[|g| - 1].spacingToNext == None
  {
    var spacings := Spacings(ps);
    forall k | 0 <= k < |g| ensures g[k].line == ps[k].1 && g[k].isVertical == isVertical && g[k].labelText == [] {
      ScoredFields(ps, spacings, dominant, isVertical, k);
    }
    forall k | 0 <= k < |g| - 1
      ensures g[k].spacingToNext == Some(Position(g[k + 1].line, isVertical) - Position(g[k].line, isVertical))
    {
      ScoredGap(ps, dominant, isVertical, g, k);
    }
    ScoredFields(ps, spacings, dominant, isVertical, |g| - 1);
  }

  /** The gap the `k`-th scored line records is the rise in position to the next line. */
  lemma ScoredGap(ps: seq<(real, Line2D)>, dominant: real, isVertical: bool, g: seq<GridLine>, k: nat)
    requires k + 1 < |ps| && dominant != 0.0 && g == ScoreAll(ps, Spacings(ps), dominant, isVertical)
    requires ps[k].0 == Position(ps[k].1, isVertical) && ps[k + 1].0 == Position(ps[k + 1].1, isVertical)
    requires ps[k].0 <= ps[k + 1].0
    ensures g[k].spacingToNext == Some(Position(g[k + 1].line, isVertical) - Position(g[k].line, isVertical))
  {
    var spacings := Spacings(ps);
    ScoredFields(ps, spacings, dominant, isVertical, k);
    ScoredFields(ps, spacings, dominant, isVertical, k + 1);
    SpacingAt(ps, k);
  }

  lemma SpacingAt(ps: seq<(real, Line2D)>, k: nat)
    requires k + 1 < |ps|
    ensures Spacings(ps)[k] == Abs(ps[k + 1].0 - ps[k].0)
  {
  }

  /** The fields of the `i`-th scored line other than its confidence. */
  lemma ScoredFields(ps: seq<(real, Line2D)>, spacings: seq<real>, dominant: real, isVertical: bool, i: nat)
    requires dominant != 0.0 && |ps| == |spacings| + 1 && i < |ps|
    ensures var l := ScoreAll(ps, spacings, dominant, isVertical)[i];
      && l.line == ps[i].1 && l.isVertical == isVertical && l.labelText == []
      && (l.spacingToNext.Some? <==> i < |spacings|)
      && (i < |spacings| ==> l.spacingToNext.value == spacings[i])
  {
  }

  /** Against a positive dominant spacing every score lies in [0.5, 1]. */
  lemma ScoreAllConfidence(ps: seq<(real, Line2D)>, spacings: seq<real>, dominant: real, isVertical: bool)
    requires dominant > 0.0 && |ps| == |spacings| + 1
    requires forall k :: 0 <= k < |spacings| ==> spacings[k] >= 0.0
    ensures ConfidencesAtLeastHalf(ScoreAll(ps, spacings, dominant, isVertical))
    ensures NonNegativeSpacings(ScoreAll(ps, spacings, dominant, isVertical))
  {
    var g := ScoreAll(ps, spacings, dominant, isVertical);
    forall k | 0 <= k < |g| ensures 0.5 <= g[k].confidence <= 1.0 {
      if k < |spacings| {
        DeviationNonNegative(spacings[k], dominant);
      }
      if k > 0 {
        DeviationNonNegative(spacings[k - 1], dominant);
      }
    }
  }

  /**
   * With at least two lines, `_detect_grid_lines` keeps every line, in the order of the sorted
   * positions; `spacing_to_next` is the gap to the next line, none for the last.
   */
  lemma GridLinesOrdered(lines: seq<Line2D>, isVertical: bool, g: seq<GridLine>)
    requires |lines| >= 2 && GridLinesSpec(lines, isVertical) == Success(g)
    ensures |g| == |lines|
    ensures forall k :: 0 <= k < |g| ==> g[k].line == SortedPositions(lines, isVertical)[k].1
    ensures forall i, j :: 0 <= i < j < |g| ==> Position(g[i].line, isVertical) <= Position(g[j].line, isVertical)
    ensures forall k :: 0 <= k < |g| ==> g[k].isVertical == isVertical && g[k].labelText == []
    ensures forall k :: 0 <= k < |g| - 1 ==>
      g[k].spacingToNext == Some(Position(g[k + 1].line, isVertical) - Position(g[k].line, isVertical))
    ensures g[|g| - 1].spacingToNext == None
  {
    SortedPositionsFaithful(lines, isVertical);
    var ps := SortedPositions(lines, isVertical);
    var dominant := DominantSpacing(Spacings(ps));
    ScoreAllOrdered(ps, dominant, isVertical, g);
    forall i, j | 0 <= i < j < |g| ensures Position(g[i].line, isVertical) <= Position(g[j].line, isVertical) {
      assert ps[i].0 <= ps[j].0;
    }
  }

  /** Every confidence `_detect_grid_lines` assigns lies in [0.5, 1], and every gap is non-negative. */
  lemma GridLinesConfidence(lines: seq<Line2D>, isVertical: bool, g: seq<GridLine>)
    requires GridLinesSpec(lines, isVertical) == Success(g)
    ensures ConfidencesAtLeastHalf(g)
    ensures NonNegativeSpacings(g)
  {
    if |lines| >= 2 {
      var ps := SortedPositions(lines, isVertical);
      var spacings := Spacings(ps);
      SpacingsNonNegative(ps);
      ScoreAllConfidence(ps, spacings, DominantSpacing(spacings), isVertical);
    }
  }

  /** Gaps are absolute values, so they and their dominant spacing are non-negative. */
  lemma SpacingsNonNegative(ps: seq<(real, Line2D)>)
    ensures forall k :: 0 <= k < |Spacings(ps)| ==> Spacings(ps)[k] >= 0.0
    ensures DominantSpacing(Spacings(ps)) >= 0.0
  {
    var spacings := Spacings(ps);
    if spacings != [] {
      assert SeqMin(spacings) in spacings;
    }
  }

  // ---------------------------------------------------------------- labels

  /** The message of the `ValueError` `chr` raises for a code past 0x10FFFF. */
  const ChrError: string := "chr() arg not in range(0x110000)"

  /** How many rows can be labelled: from this index on, the first character's code is past 0x10FFFF. */
  const LabelCapacity: nat := 26 * (0x110000 - 64)

  /** `ord('A') + i // 26 - 1`, the code of the first character of a two-character row label. */
  lemma FirstCodeInRange(i: nat)
    requires i >= 26
    ensures 64 + i / 26 < 0x110000 <==> i < LabelCapacity
  {
  }

  /**
   * 'A'..'Z' for the first 26 rows, then two characters: `chr(A + i/26 - 1)` and `chr(A + i%26)`.
   * `None` where `chr` raises, the first code being past 0x10FFFF.
   */
  function HorizontalLabel(i: nat): (r: Option<Label>)
    ensures r.None? <==> i >= LabelCapacity
    ensures r.Some? ==> |r.value| == (if i < 26 then 1 else 2)
  {
    if i < 26 then Some([(65 + i) as CodePoint])
    else
      FirstCodeInRange(i);
      if 64 + i / 26 < 0x110000 then Some([(64 + i / 26) as CodePoint, (65 + i % 26) as CodePoint])
      else None
  }

  function DigitChar(d: nat): CodePoint
    requires d < 10
  {
    (48 + d) as CodePoint
  }

  /** `str(n)` for a natural number. */
  function NatToString(n: nat): (r: Label)
    ensures r != [] && IsDigits(r)
  {
    if n < 10 then [DigitChar(n)] else NatToString(n / 10) + [DigitChar(n % 10)]
  }

  /** `int(s)` of a string of decimal digits. */
  function StringToNat(s: Label): nat
    requires IsDigits(s)
  {
    if s == [] then 0 else 10 * StringToNat(s[..|s| - 1]) + (s[|s| - 1] as int - 48)
  }

  /** Parsing a number's decimal text gives the number back. */
  lemma {:induction false} NatToStringRoundTrip(n: nat)
    ensures StringToNat(NatToString(n)) == n
  {
    if n >= 10 {
      NatToStringRoundTrip(n / 10);
      var s := NatToString(n);
      assert s[..|s| - 1] == NatToString(n / 10);
    }
  }

  /** The label of line `i` of an axis: its 1-based number for a vertical axis, a letter code otherwise. */
  function LabelFor(i: nat, isVertical: bool): (r: Option<Label>)
    ensures r.None? <==> !isVertical && i >= LabelCapacity
  {
    if isVertical then Some(NatToString(i + 1)) else HorizontalLabel(i)
  }

  /** Reads a row label back into its index. */
  function HorizontalIndex(s: Label): int
  {
    if |s| == 1 then s[0] as int - 65
    else if |s| == 2 then 26 * (s[0] as int - 64) + (s[1] as int - 65)
    else -1
  }

  /** Every row label there is reads back as its own index. */
  lemma HorizontalLabelRoundTrip(i: nat)
    ensures HorizontalLabel(i).Some? ==> HorizontalIndex(HorizontalLabel(i).value) == i
  {
    if i >= 26 && HorizontalLabel(i).Some? {
      var s := HorizontalLabel(i).value;
      assert s[0] as int == 64 + i / 26 && s[1] as int == 65 + i % 26;
      assert 26 * (i / 26) + i % 26 == i;
    }
  }

  /**
   * Different lines of an axis get different labels; every column gets a non-empty number;
   * rows below 702 get letters only (A..Z, AA..ZZ).
   */
  lemma LabelsDistinct(i: nat, j: nat, isVertical: bool)
    ensures i != j && LabelFor(i, isVertical).Some? && LabelFor(j, isVertical).Some? ==>
      LabelFor(i, isVertical).value != LabelFor(j, isVertical).value
    ensures !isVertical && LabelFor(i, isVertical).Some? ==> (IsLetters(LabelFor(i, isVertical).value) <==> i < 702)
    ensures isVertical ==> LabelFor(i, isVertical).Some? && IsDigits(LabelFor(i, isVertical).value) && LabelFor(i, isVertical).value != []
  {
    if isVertical {
      NatToStringRoundTrip(i + 1);
      NatToStringRoundTrip(j + 1);
    } else {
      HorizontalLabelRoundTrip(i);
      HorizontalLabelRoundTrip(j);
      if i >= 26 && HorizontalLabel(i).Some? {
        var a := HorizontalLabel(i).value;
        assert a[0] as int == 64 + i / 26;
        assert i < 702 <==> i / 26 <= 26;
      }
    }
  }

  /** The lines `before[..n]` carry their labels, and the rest are as they were. */
  predicate LabelledPrefix(before: seq<GridLine>, after: seq<GridLine>, n: nat, isVertical: bool)
  {
    && |after| == |before| && n <= |before|
    && (forall k :: 0 <= k < n ==> LabelFor(k, isVertical).Some? && after[k] == before[k].(labelText := LabelFor(k, isVertical).value))
    && (forall k :: n <= k < |before| ==> after[k] == before[k])
  }

  /**
   * The labelled copy of an axis: the same lines with `labelText` set from the position in the
   * list; the `ValueError` of `chr` for a row axis longer than `LabelCapacity`.
   */
  function Labelled(gs: seq<GridLine>, isVertical: bool): (r: Result<seq<GridLine>>)
    ensures r.Failure? <==> !isVertical && |gs| > LabelCapacity
    ensures r.Failure? ==> r.error == ChrError
    ensures r.Success? ==> LabelledPrefix(gs, r.value, |gs|, isVertical)
  {
    if !isVertical && |gs| > LabelCapacity then Failure(ChrError)
    else Success(seq(|gs|, k requires 0 <= k < |gs| => gs[k].(labelText := LabelFor(k, isVertical).value)))
  }

  /**
   * `_label_grid_lines`: writes each grid line's label in place, leaving every other field as it
   * was. The `ValueError` of `chr` stops it at index `LabelCapacity` with the earlier lines labelled.
   */
  method LabelGridLines(a: array<GridLine>, isVertical: bool) returns (r: Result<()>)
    modifies a
    ensures r.Success? <==> Labelled(old(a[..]), isVertical).Success?
    ensures r.Success? ==> a[..] == Labelled(old(a[..]), isVertical).value
    ensures r.Failure? ==> r.error == ChrError && LabelledPrefix(old(a[..]), a[..], LabelCapacity, isVertical)
  {
    var i := 0;
    while i < a.Length
      invariant 0 <= i <= a.Length
      invariant isVertical || i <= LabelCapacity
      invariant LabelledPrefix(old(a[..]), a[..], i, isVertical)
    {
      if isVertical {
        a[i] := a[i].(labelText := NatToString(i + 1));
      } else if i < 26 {
        a[i] := a[i].(labelText := [(65 + i) as CodePoint]);
      } else {
        var code := 65 + i / 26 - 1;
        FirstCodeInRange(i);
        if code >= 0x110000 {
          return Failure(ChrError);
        }
        var first := code as CodePoint;
        var second := (65 + i % 26) as CodePoint;
        a[i] := a[i].(labelText := [first, second]);
      }
      i := i + 1;
    }
    r := Success(());
  }

  // ---------------------------------------------------------------- intersections

  /** The crossing of row `h` and column `v`: at (mid-X of v, mid-Y of h), with the weaker confidence. */
  function Cross(h: GridLine, v: GridLine): GridIntersection
  {
    GridIntersection(Point2D((v.line.start.x + v.line.end.x) / 2.0, (h.line.start.y + h.line.end.y) / 2.0),
                     h.labelText, v.labelText, Min(h.confidence, v.confidence))
  }

  function Row(h: GridLine, vs: seq<GridLine>): (r: seq<GridIntersection>)
    ensures |r| == |vs| && forall j :: 0 <= j < |vs| ==> r[j] == Cross(h, vs[j])
  {
    seq(|vs|, j requires 0 <= j < |vs| => Cross(h, vs[j]))
  }

  /** Every row crossed with every column, row by row. */
  function Intersections(hs: seq<GridLine>, vs: seq<GridLine>): seq<GridIntersection>
  {
    if hs == [] then [] else Intersections(hs[..|hs| - 1], vs) + Row(hs[|hs| - 1], vs)
  }

  /** There are |H|*|V| intersections, and the one at `i * |V| + j` crosses row `i` with column `j`. */
  /** There are exactly |H|·|V| intersections. */
  lemma {:induction false} IntersectionsCount(hs: seq<GridLine>, vs: seq<GridLine>)
    ensures |Intersections(hs, vs)| == |hs| * |vs|
  {
    if hs != [] {
      IntersectionsCount(hs[..|hs| - 1], vs);
      MulMonotoneNat(|hs| - 1, |hs| - 1, |vs|);
    }
  }

  /** The intersection at row-major index `i * |V| + j` crosses row `i` with column `j`. */
  lemma {:induction false} IntersectionAtIndex(hs: seq<GridLine>, vs: seq<GridLine>, i: nat, j: nat)
    requires i < |hs| && j < |vs|
    ensures i * |vs| + j < |Intersections(hs, vs)|
    ensures Intersections(hs, vs)[i * |vs| + j] == Cross(hs[i], vs[j])
  {
    var init := hs[..|hs| - 1];
    var n, w := |init|, |vs|;
    IntersectionsCount(init, vs);
    var front, row := Intersections(init, vs), Row(hs[|hs| - 1], vs);
    assert Intersections(hs, vs) == front + row;
    if i < n {
      IntersectionAtIndex(init, vs, i, j);
      assert hs[i] == init[i];
      assert (front + row)[i * w + j] == front[i * w + j];
    } else {
      assert i * w + j == |front| + j;
      assert (front + row)[i * w + j] == row[j];
    }
  }

  /** Every intersection crosses one of the rows with one of the columns. */
  lemma {:induction false} IntersectionMember(hs: seq<GridLine>, vs: seq<GridLine>, g: GridIntersection)
    requires g in Intersections(hs, vs)
    ensures exists i, j :: 0 <= i < |hs| && 0 <= j < |vs| && g == Cross(hs[i], vs[j])
  {
    var init := hs[..|hs| - 1];
    if g in Intersections(init, vs) {
      IntersectionMember(init, vs, g);
      var i, j :| 0 <= i < |init| && 0 <= j < |vs| && g == Cross(init[i], vs[j]);
      assert hs[i] == init[i];
    } else {
      var row := Row(hs[|hs| - 1], vs);
      assert g in row;
      var j :| 0 <= j < |vs| && row[j] == g;
      assert g == Cross(hs[|hs| - 1], vs[j]);
    }
  }

  lemma MulMonotoneNat(a: nat, b: nat, c: nat)
    requires a <= b
    ensures a * c <= b * c
    ensures b * c + c == (b + 1) * c
  {
  }

  /** Every intersection's confidence is the smaller of its two lines' confidences, so it is valid when both are. */
  lemma IntersectionConfidence(h: GridLine, v: GridLine)
    requires ValidConfidence(h.confidence) && ValidConfidence(v.confidence)
    ensures ValidConfidence(Cross(h, v).confidence)
    ensures Cross(h, v).confidence <= h.confidence && Cross(h, v).confidence <= v.confidence
    ensures IntersectionLabel(Cross(h, v)) == h.labelText + v.labelText
  {
  }

  /** `_find_intersections`: the nested loop over rows, then columns. */
  method FindIntersections(hs: seq<GridLine>, vs: seq<GridLine>) returns (r: seq<GridIntersection>)
    ensures r == Intersections(hs, vs)
  {
    r := [];
    var i := 0;
    while i < |hs|
      invariant 0 <= i <= |hs|
      invariant r == Intersections(hs[..i], vs)
    {
      var j := 0;
      ghost var before := r;
      while j < |vs|
        invariant 0 <= j <= |vs|
        invariant r == before + Row(hs[i], vs[..j])
      {
        var hy := (hs[i].line.start.y + hs[i].line.end.y) / 2.0;
        var vx := (vs[j].line.start.x + vs[j].line.end.x) / 2.0;
        r := r + [GridIntersection(Point2D(vx, hy), hs[i].labelText, vs[j].labelText, Min(hs[i].confidence, vs[j].confidence))];
        assert Row(hs[i], vs[..j + 1]) == Row(hs[i], vs[..j]) + [Cross(hs[i], vs[j])];
        j := j + 1;
      }
      assert vs[..j] == vs;
      assert hs[..i + 1][..i] == hs[..i];
      i := i + 1;
    }
    assert hs[..i] == hs;
  }

  // ---------------------------------------------------------------- regularity, confidence, box

  /** `[gl.spacing_to_next for gl in lines if gl.spacing_to_next]`: neither `None` nor `0.0` is kept. */
  function TruthySpacings(gs: seq<GridLine>): (r: seq<real>)
    ensures |r| <= |gs|
    ensures forall k :: 0 <= k < |r| ==> r[k] != 0.0 && exists j :: 0 <= j < |gs| && gs[j].spacingToNext == Some(r[k])
  {
    if gs == [] then []
    else
      var init := TruthySpacings(gs[..|gs| - 1]);
      var g := gs[|gs| - 1];
      if g.spacingToNext.Some? && g.spacingToNext.value != 0.0 then init + [g.spacingToNext.value] else init
  }

  /** Every non-zero spacing some line carries is kept. */
  lemma {:induction false} TruthySpacingsComplete(gs: seq<GridLine>)
    ensures forall j :: 0 <= j < |gs| && gs[j].spacingToNext.Some? && gs[j].spacingToNext.value != 0.0 ==>
      gs[j].spacingToNext.value in TruthySpacings(gs)
  {
    if gs != [] {
      var init := gs[..|gs| - 1];
      TruthySpacingsComplete(init);
      assert forall j :: 0 <= j < |init| ==> gs[j] == init[j];
    }
  }

  /** The filter distributes over concatenation, so the kept spacings stay in line order. */
  lemma {:induction false} TruthySpacingsAppend(a: seq<GridLine>, b: seq<GridLine>)
    ensures TruthySpacings(a + b) == TruthySpacings(a) + TruthySpacings(b)
  {
    if b == [] {
      assert a + b == a;
    } else {
      var b0, x := b[..|b| - 1], b[|b| - 1];
      TruthySpacingsAppend(a, b0);
      SnocParts(a, b);
      var e := if x.spacingToNext.Some? && x.spacingToNext.value != 0.0 then [x.spacingToNext.value] else [];
      TruthySpacingsSnoc(a + b0, x);
      TruthySpacingsSnoc(b0, x);
      ConcatAssoc(TruthySpacings(a), TruthySpacings(b0), e);
    }
  }

  lemma TruthySpacingsSnoc(s: seq<GridLine>, x: GridLine)
    ensures TruthySpacings(s + [x]) ==
      TruthySpacings(s) + (if x.spacingToNext.Some? && x.spacingToNext.value != 0.0 then [x.spacingToNext.value] else [])
  {
    assert (s + [x])[..|s|] == s;
  }

  /** `_is_spacing_regular`: no gap deviates from the average by more than the tolerance; false without gaps. */
  function SpacingRegular(tol: real, spacings: seq<real>, avg: Option<real>): Result<bool>
  {
    if spacings == [] || avg.None? then Success(false)
    else if avg.value == 0.0 then Failure(ZeroDivision)
    else Success(forall k :: 0 <= k < |spacings| ==> Abs(spacings[k] - avg.value) / avg.value <= tol)
  }

  method IsSpacingRegular(tol: real, spacings: seq<real>, avg: Option<real>) returns (r: Result<bool>)
    ensures r == SpacingRegular(tol, spacings, avg)
  {
    if |spacings| == 0 || avg.None? {
      return Success(false);
    }
    var i := 0;
    while i < |spacings|
      invariant 0 <= i <= |spacings|
      invariant avg.value != 0.0 || i == 0
      invariant forall k :: 0 <= k < i ==> Abs(spacings[k] - avg.value) / avg.value <= tol
    {
      if avg.value == 0.0 {
        return Failure(ZeroDivision);
      }
      var deviation := Abs(spacings[i] - avg.value) / avg.value;
      if deviation > tol {
        return Success(false);
      }
      i := i + 1;
    }
    return Success(true);
  }

  /** Equal positive gaps are regular for every non-negative tolerance. */
  lemma EqualSpacingsRegular(tol: real, spacings: seq<real>, s: real)
    requires tol >= 0.0 && s > 0.0 && spacings != []
    requires forall k :: 0 <= k < |spacings| ==> spacings[k] == s
    ensures SpacingRegular(tol, spacings, Some(Mean(spacings))) == Success(true)
  {
    MeanBetween(spacings);
    assert SeqMin(spacings) in spacings && SeqMax(spacings) in spacings;
    assert Mean(spacings) == s;
  }

  function AverageOf(spacings: seq<real>): Option<real>
  {
    if spacings == [] then None else Some(Mean(spacings))
  }

  /** The outcome of `_check_regularity`. */
  datatype Regularity = Regularity(isRegular: bool, avgH: Option<real>, avgV: Option<real>)

  /** `_check_regularity`: both axes regular, an axis without gaps counting as regular. */
  function CheckRegularity(tol: real, hs: seq<GridLine>, vs: seq<GridLine>): (r: Result<Regularity>)
    ensures NonNegativeSpacings(hs) && NonNegativeSpacings(vs) ==> r.Success?
  {
    TruthyPositive(hs);
    TruthyPositive(vs);
    var hsp, vsp := TruthySpacings(hs), TruthySpacings(vs);
    var avgH, avgV := AverageOf(hsp), AverageOf(vsp);
    var hRegular := if hsp != [] then SpacingRegular(tol, hsp, avgH) else Success(true);
    if hRegular.Failure? then Failure(hRegular.error)
    else
      var vRegular := if vsp != [] then SpacingRegular(tol, vsp, avgV) else Success(true);
      if vRegular.Failure? then Failure(vRegular.error)
      else Success(Regularity(hRegular.value && vRegular.value, avgH, avgV))
  }

  predicate NonNegativeSpacings(gs: seq<GridLine>)
  {
    forall k :: 0 <= k < |gs| && gs[k].spacingToNext.Some? ==> gs[k].spacingToNext.value >= 0.0
  }

  /** With non-negative gaps the averages are positive, so the check never divides by zero. */
  lemma CheckRegularitySucceeds(tol: real, hs: seq<GridLine>, vs: seq<GridLine>)
    requires NonNegativeSpacings(hs) && NonNegativeSpacings(vs)
    ensures CheckRegularity(tol, hs, vs).Success?
    ensures var hsp, vsp := TruthySpacings(hs), TruthySpacings(vs);
      CheckRegularity(tol, hs, vs).value.isRegular <==>
        (hsp == [] || SpacingRegular(tol, hsp, AverageOf(hsp)) == Success(true)) &&
        (vsp == [] || SpacingRegular(tol, vsp, AverageOf(vsp)) == Success(true))
  {
    TruthyPositive(hs);
    TruthyPositive(vs);
  }

  lemma TruthyPositive(gs: seq<GridLine>)
    ensures var sp := TruthySpacings(gs); NonNegativeSpacings(gs) && sp != [] ==> Mean(sp) > 0.0
  {
    var sp := TruthySpacings(gs);
    if NonNegativeSpacings(gs) && sp != [] {
      forall k | 0 <= k < |sp| ensures sp[k] > 0.0 {
        var j :| 0 <= j < |gs| && gs[j].spacingToNext == Some(sp[k]);
      }
      MeanBetween(sp);
      assert SeqMin(sp) in sp;
    }
  }

  function MeanConfidence(gs: seq<GridLine>): real
    requires gs != []
  {
    Mean(seq(|gs|, k requires 0 <= k < |gs| => gs[k].confidence))
  }

  /** 0.1 for 4 to 20 lines, 0.05 above 20, nothing below 4. */
  function CountBonus(lineCount: int): real
  {
    if 4 <= lineCount <= 20 then 0.1 else if lineCount > 20 then 0.05 else 0.0
  }

  /** `_calculate_confidence`: the mean of both axes' mean line confidences plus the bonuses, capped at 1. */
  function GridConfidence(hs: seq<GridLine>, vs: seq<GridLine>, isRegular: bool): (r: real)
    requires hs != [] && vs != []
    ensures r <= 1.0
    ensures r >= Min(1.0, (MeanConfidence(hs) + MeanConfidence(vs)) / 2.0)
  {
    var base := (MeanConfidence(hs) + MeanConfidence(vs)) / 2.0;
    Min(1.0, base + (if isRegular then 0.1 else 0.0) + CountBonus(|hs| + |vs|))
  }

  predicate ConfidencesAtLeastHalf(gs: seq<GridLine>)
  {
    forall k :: 0 <= k < |gs| ==> 0.5 <= gs[k].confidence <= 1.0
  }

  /** The grid confidence never exceeds 1, is at least 0.5 when every line's is, and regularity never lowers it. */
  lemma GridConfidenceBounds(hs: seq<GridLine>, vs: seq<GridLine>, isRegular: bool)
    requires hs != [] && vs != []
    ensures GridConfidence(hs, vs, isRegular) <= 1.0
    ensures GridConfidence(hs, vs, false) <= GridConfidence(hs, vs, true)
    ensures ConfidencesAtLeastHalf(hs) && ConfidencesAtLeastHalf(vs) ==> 0.5 <= GridConfidence(hs, vs, isRegular)
  {
    if ConfidencesAtLeastHalf(hs) && ConfidencesAtLeastHalf(vs) {
      MeanConfidenceAtLeastHalf(hs);
      MeanConfidenceAtLeastHalf(vs);
    }
  }

  lemma MeanConfidenceAtLeastHalf(gs: seq<GridLine>)
    requires gs != [] && ConfidencesAtLeastHalf(gs)
    ensures MeanConfidence(gs) >= 0.5
  {
    var cs := seq(|gs|, k requires 0 <= k < |gs| => gs[k].confidence);
    MeanBetween(cs);
    assert SeqMin(cs) in cs;
  }

  function MidYs(hs: seq<GridLine>): (r: seq<real>)
    ensures |r| == |hs|
  {
    seq(|hs|, k requires 0 <= k < |hs| => (hs[k].line.start.y + hs[k].line.end.y) / 2.0)
  }

  function MidXs(vs: seq<GridLine>): (r: seq<real>)
    ensures |r| == |vs|
  {
    seq(|vs|, k requires 0 <= k < |vs| => (vs[k].line.start.x + vs[k].line.end.x) / 2.0)
  }

  const EmptyMin: string := "min() arg is an empty sequence"

  /** `_calculate_grid_bbox`: x from the columns' mid-X values, y from the rows' mid-Y values; `min([])` raises. */
  function GridBBox(hs: seq<GridLine>, vs: seq<GridLine>): (r: Result<BoundingBox>)
    ensures r.Success? <==> hs != [] && vs != []
  {
    if hs == [] || vs == [] then Failure(EmptyMin)
    else Success(Box2D(SeqMin(MidXs(vs)), SeqMin(MidYs(hs)), SeqMax(MidXs(vs)), SeqMax(MidYs(hs))))
  }

  /** Every intersection point lies inside the grid's bounding box. */
  lemma IntersectionsInsideBox(hs: seq<GridLine>, vs: seq<GridLine>)
    requires hs != [] && vs != []
    ensures forall g :: g in Intersections(hs, vs) ==> ContainsPoint(GridBBox(hs, vs).value, g.point)
  {
    var b := GridBBox(hs, vs).value;
    var xs, ys := MidXs(vs), MidYs(hs);
    forall g | g in Intersections(hs, vs) ensures ContainsPoint(b, g.point) {
      IntersectionMember(hs, vs, g);
      var i, j :| 0 <= i < |hs| && 0 <= j < |vs| && g == Cross(hs[i], vs[j]);
      assert g.point.x == xs[j] && g.point.y == ys[i];
    }
  }

  // ---------------------------------------------------------------- detect

  /** `GridDetector.detect`: `None` when a stage finds too little, a failure when a dominant spacing is zero. */
  function DetectSpec(d: GridDetector, m: Math, lines: seq<Line2D>): Result<Option<BuildingGrid>>
    requires ValidMath(m)
  {
    var filtered := LongLines(m, d.minLineLength, lines);
    if |filtered| < d.minGridLines * 2 then Success(None)
    else
      var hLines, vLines := HorizontalOf(m, d.angleTolerance, filtered), VerticalOf(m, d.angleTolerance, filtered);
      if |hLines| < d.minGridLines || |vLines| < d.minGridLines then Success(None)
      else DetectFromAxes(d, hLines, vLines)
  }

  /** Steps 3 to 7 of `detect`, from the two orientation clusters on. */
  function DetectFromAxes(d: GridDetector, hLines: seq<Line2D>, vLines: seq<Line2D>): Result<Option<BuildingGrid>>
  {
    var hGrid := GridLinesSpec(hLines, false);
    if hGrid.Failure? then Failure(hGrid.error)
    else
      var vGrid := GridLinesSpec(vLines, true);
      if vGrid.Failure? then Failure(vGrid.error)
      else if hGrid.value == [] || vGrid.value == [] then Success(None)
      else
        AssembleGrid(d, hGrid.value, vGrid.value)
  }

  /** Steps 4 to 7 of `detect`: labels, intersections, regularity, confidence and the bounding box. */
  function AssembleGrid(d: GridDetector, hGrid: seq<GridLine>, vGrid: seq<GridLine>): Result<Option<BuildingGrid>>
    requires hGrid != [] && vGrid != []
  {
    var hl, vl := Labelled(hGrid, false), Labelled(vGrid, true);
    if hl.Failure? then Failure(hl.error)
    else
      var hs, vs := hl.value, vl.value;
      var regularity := CheckRegularity(d.spacingTolerance, hs, vs);
      if regularity.Failure? then Failure(regularity.error)
      else
        var confidence := GridConfidence(hs, vs, regularity.value.isRegular);
        var bbox := GridBBox(hs, vs);
        Success(Some(BuildingGrid(hs, vs, Intersections(hs, vs), bbox.value, regularity.value.isRegular,
                                  regularity.value.avgH, regularity.value.avgV, confidence)))
  }

  /** `GridDetector.detect`. */
  method Detect(d: GridDetector, m: Math, lines: seq<Line2D>) returns (r: Result<Option<BuildingGrid>>)
    requires ValidMath(m)
    ensures r == DetectSpec(d, m, lines)
  {
    var filtered := LongLines(m, d.minLineLength, lines);
    if |filtered| < d.minGridLines * 2 {
      return Success(None);
    }
    var hLines, vLines := ClusterByOrientation(m, d.angleTolerance, filtered);
    if |hLines| < d.minGridLines || |vLines| < d.minGridLines {
      return Success(None);
    }
    var hGrid := DetectGridLines(hLines, false);
    if hGrid.Failure? {
      return Failure(hGrid.error);
    }
    var vGrid := DetectGridLines(vLines, true);
    if vGrid.Failure? {
      return Failure(vGrid.error);
    }
    if |hGrid.value| == 0 || |vGrid.value| == 0 {
      return Success(None);
    }
    r := Assemble(d, hGrid.value, vGrid.value);
  }

  /** Steps 4 to 7 of `detect`: the labels are written into the grid lines in place, then the grid is built. */
  method Assemble(d: GridDetector, hGrid: seq<GridLine>, vGrid: seq<GridLine>) returns (r: Result<Option<BuildingGrid>>)
    requires hGrid != [] && vGrid != []
    ensures r == AssembleGrid(d, hGrid, vGrid)
  {
    var ha := new GridLine[|hGrid|](k requires 0 <= k < |hGrid| => hGrid[k]);
    var va := new GridLine[|vGrid|](k requires 0 <= k < |vGrid| => vGrid[k]);
    assert ha[..] == hGrid && va[..] == vGrid;
    var labelledH := LabelGridLines(ha, false);
    if labelledH.Failure? {
      return Failure(labelledH.error);
    }
    var labelledV := LabelGridLines(va, true);
    var hs, vs := ha[..], va[..];
    var intersections := FindIntersections(hs, vs);
    var regularity := CheckRegularity(d.spacingTolerance, hs, vs);
    if regularity.Failure? {
      return Failure(regularity.error);
    }
    var confidence := GridConfidence(hs, vs, regularity.value.isRegular);
    var bbox := GridBBox(hs, vs);
    r := Success(Some(BuildingGrid(hs, vs, intersections, bbox.value, regularity.value.isRegular,
                                   regularity.value.avgH, regularity.value.avgV, confidence)));
  }

  /**
   * `detect` gives `None` exactly in its three early exits, and otherwise fails only for a zero
   * dominant spacing or a row axis too long to label.
   */
  lemma DetectNoneCases(d: GridDetector, m: Math, lines: seq<Line2D>)
    requires ValidMath(m)
    ensures var filtered := LongLines(m, d.minLineLength, lines);
      var hLines, vLines := HorizontalOf(m, d.angleTolerance, filtered), VerticalOf(m, d.angleTolerance, filtered);
      var r := DetectSpec(d, m, lines);
      && (|filtered| < d.minGridLines * 2 ==> r == Success(None))
      && (|filtered| >= d.minGridLines * 2 && (|hLines| < d.minGridLines || |vLines| < d.minGridLines) ==> r == Success(None))
      && (|filtered| >= d.minGridLines * 2 && |hLines| >= d.minGridLines && |vLines| >= d.minGridLines ==>
            (r.Failure? <==> GridLinesSpec(hLines, false).Failure? || GridLinesSpec(vLines, true).Failure?
                             || (|hLines| > LabelCapacity && |vLines| >= 2)) &&
            (r == Success(None) <==> r.Success? && (|hLines| < 2 || |vLines| < 2)))
  {
    var filtered := LongLines(m, d.minLineLength, lines);
    var hLines, vLines := HorizontalOf(m, d.angleTolerance, filtered), VerticalOf(m, d.angleTolerance, filtered);
    if |filtered| >= d.minGridLines * 2 && |hLines| >= d.minGridLines && |vLines| >= d.minGridLines {
      DetectFromAxesCases(d, hLines, vLines);
    }
  }

  /**
   * From the two clusters on, `detect` fails exactly for a zero dominant spacing or, with
   * `chr`'s error, for more rows than `LabelCapacity`, and gives `None` exactly for a
   * cluster of fewer than two lines.
   */
  lemma DetectFromAxesCases(d: GridDetector, hLines: seq<Line2D>, vLines: seq<Line2D>)
    ensures var r := DetectFromAxes(d, hLines, vLines);
      && (r.Failure? <==> GridLinesSpec(hLines, false).Failure? || GridLinesSpec(vLines, true).Failure?
                          || (|hLines| > LabelCapacity && |vLines| >= 2))
      && (r.Failure? && GridLinesSpec(hLines, false).Success? && GridLinesSpec(vLines, true).Success? ==> r.error == ChrError)
      && (r == Success(None) <==> r.Success? && (|hLines| < 2 || |vLines| < 2))
  {
    GridLinesOutcome(hLines, false);
    GridLinesOutcome(vLines, true);
    var hGrid, vGrid := GridLinesSpec(hLines, false), GridLinesSpec(vLines, true);
    if hGrid.Success? && vGrid.Success? && hGrid.value != [] && vGrid.value != [] {
      GridLinesConfidence(hLines, false, hGrid.value);
      GridLinesConfidence(vLines, true, vGrid.value);
      AssembleSucceeds(d, hGrid.value, vGrid.value);
      assert hGrid.value != [] ==> |hLines| >= 2;
      assert vGrid.value != [] ==> |vLines| >= 2;
    }
  }

  /** Grid lines with non-negative gaps assemble into a grid exactly when the rows can be labelled. */
  lemma AssembleSucceeds(d: GridDetector, hGrid: seq<GridLine>, vGrid: seq<GridLine>)
    requires hGrid != [] && vGrid != []
    requires NonNegativeSpacings(hGrid) && NonNegativeSpacings(vGrid)
    ensures AssembleGrid(d, hGrid, vGrid).Success? <==> |hGrid| <= LabelCapacity
    ensures AssembleGrid(d, hGrid, vGrid).Success? ==> AssembleGrid(d, hGrid, vGrid).value.Some?
    ensures AssembleGrid(d, hGrid, vGrid).Failure? ==> AssembleGrid(d, hGrid, vGrid).error == ChrError
  {
    var hl, vl := Labelled(hGrid, false), Labelled(vGrid, true);
    if hl.Success? {
      var hs, vs := hl.value, vl.value;
      assert NonNegativeSpacings(hs) && NonNegativeSpacings(vs);
      CheckRegularitySucceeds(d.spacingTolerance, hs, vs);
    }
  }

  /**
   * A grid assembled from scored axes has |H|*|V| intersections, letter row labels and numeric
   * column labels in position order, and every confidence in [0.5, 1].
   */
  lemma AssembledShape(d: GridDetector, hGrid: seq<GridLine>, vGrid: seq<GridLine>, g: BuildingGrid)
    requires hGrid != [] && vGrid != []
    requires ConfidencesAtLeastHalf(hGrid) && ConfidencesAtLeastHalf(vGrid)
    requires AssembleGrid(d, hGrid, vGrid) == Success(Some(g))
    ensures |g.horizontalLines| == |hGrid| && |g.verticalLines| == |vGrid|
    ensures |g.intersections| == |g.horizontalLines| * |g.verticalLines|
    ensures forall k :: 0 <= k < |g.horizontalLines| ==> HorizontalLabel(k) == Some(g.horizontalLines[k].labelText)
    ensures forall k :: 0 <= k < |g.verticalLines| ==> g.verticalLines[k].labelText == NatToString(k + 1)
    ensures ConfidencesAtLeastHalf(g.horizontalLines) && ConfidencesAtLeastHalf(g.verticalLines)
    ensures 0.5 <= g.confidence <= 1.0
    ensures forall x :: x in g.intersections ==> ContainsPoint(g.boundingBox, x.point) && ValidConfidence(x.confidence)
  {
    AssembleGridParts(d, hGrid, vGrid, g);
    GridShape(hGrid, vGrid, g);
  }

  /** The shape of a grid built from the given parts. */
  lemma GridShape(hGrid: seq<GridLine>, vGrid: seq<GridLine>, g: BuildingGrid)
    requires hGrid != [] && vGrid != []
    requires ConfidencesAtLeastHalf(hGrid) && ConfidencesAtLeastHalf(vGrid)
    requires Labelled(hGrid, false) == Success(g.horizontalLines) && Labelled(vGrid, true) == Success(g.verticalLines)
    requires g.intersections == Intersections(g.horizontalLines, g.verticalLines)
    requires g.boundingBox == GridBBox(g.horizontalLines, g.verticalLines).value
    requires g.confidence == GridConfidence(g.horizontalLines, g.verticalLines, g.isRegular)
    ensures |g.horizontalLines| == |hGrid| && |g.verticalLines| == |vGrid|
    ensures |g.intersections| == |g.horizontalLines| * |g.verticalLines|
    ensures forall k :: 0 <= k < |g.horizontalLines| ==> HorizontalLabel(k) == Some(g.horizontalLines[k].labelText)
    ensures forall k :: 0 <= k < |g.verticalLines| ==> g.verticalLines[k].labelText == NatToString(k + 1)
    ensures ConfidencesAtLeastHalf(g.horizontalLines) && ConfidencesAtLeastHalf(g.verticalLines)
    ensures 0.5 <= g.confidence <= 1.0
    ensures forall x :: x in g.intersections ==> ContainsPoint(g.boundingBox, x.point) && ValidConfidence(x.confidence)
  {
    var hs, vs := g.horizontalLines, g.verticalLines;
    assert ConfidencesAtLeastHalf(hs) && ConfidencesAtLeastHalf(vs);
    IntersectionsCount(hs, vs);
    GridConfidenceBounds(hs, vs, g.isRegular);
    IntersectionsInsideBox(hs, vs);
    IntersectionsValid(hs, vs);
  }

  /** The parts of an assembled grid: the labelled lines, their crossings, their box and the grid confidence. */
  lemma AssembleGridParts(d: GridDetector, hGrid: seq<GridLine>, vGrid: seq<GridLine>, g: BuildingGrid)
    requires hGrid != [] && vGrid != []
    requires AssembleGrid(d, hGrid, vGrid) == Success(Some(g))
    ensures Labelled(hGrid, false) == Success(g.horizontalLines) && Labelled(vGrid, true) == Success(g.verticalLines)
    ensures g.intersections == Intersections(g.horizontalLines, g.verticalLines)
    ensures g.boundingBox == GridBBox(g.horizontalLines, g.verticalLines).value
    ensures g.confidence == GridConfidence(g.horizontalLines, g.verticalLines, g.isRegular)
  {
  }

  /** Crossing lines of valid confidence gives intersections of valid confidence. */
  lemma IntersectionsValid(hs: seq<GridLine>, vs: seq<GridLine>)
    requires ConfidencesAtLeastHalf(hs) && ConfidencesAtLeastHalf(vs)
    ensures forall x :: x in Intersections(hs, vs) ==> ValidConfidence(x.confidence)
  {
    forall x | x in Intersections(hs, vs) ensures ValidConfidence(x.confidence) {
      IntersectionMember(hs, vs, x);
      var i, j :| 0 <= i < |hs| && 0 <= j < |vs| && x == Cross(hs[i], vs[j]);
      IntersectionConfidence(hs[i], vs[j]);
    }
  }

  /** A grid `detect` returns has at least two rows and two columns and the shape `AssembledShape` states. */
  lemma DetectedGridShape(d: GridDetector, m: Math, lines: seq<Line2D>, g: BuildingGrid)
    requires ValidMath(m)
    requires DetectSpec(d, m, lines) == Success(Some(g))
    ensures |g.horizontalLines| >= 2 && |g.verticalLines| >= 2
    ensures |g.intersections| == |g.horizontalLines| * |g.verticalLines|
    ensures forall k :: 0 <= k < |g.horizontalLines| ==> HorizontalLabel(k) == Some(g.horizontalLines[k].labelText)
    ensures forall k :: 0 <= k < |g.verticalLines| ==> g.verticalLines[k].labelText == NatToString(k + 1)
    ensures ConfidencesAtLeastHalf(g.horizontalLines) && ConfidencesAtLeastHalf(g.verticalLines)
    ensures 0.5 <= g.confidence <= 1.0
    ensures forall x :: x in g.intersections ==> ContainsPoint(g.boundingBox, x.point) && ValidConfidence(x.confidence)
  {
    var filtered := LongLines(m, d.minLineLength, lines);
    var hLines, vLines := HorizontalOf(m, d.angleTolerance, filtered), VerticalOf(m, d.angleTolerance, filtered);
    var hGrid, vGrid := GridLinesSpec(hLines, false).value, GridLinesSpec(vLines, true).value;
    GridLinesOutcome(hLines, false);
    GridLinesOutcome(vLines, true);
    GridLinesConfidence(hLines, false, hGrid);
    GridLinesConfidence(vLines, true, vGrid);
    AssembledShape(d, hGrid, vGrid, g);
  }
}
