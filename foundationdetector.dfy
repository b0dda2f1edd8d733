/**
 * Pile-cap detection from foundation-layer lines: lines are filtered by length, split into
 * horizontal and vertical sets by comparing their x and y extents, and roughly 300 x 300
 * rectangles are matched greedily (two horizontals about 300 apart joined by two verticals),
 * each giving one foundation at the rectangle's centre. Two gap-based 1-D clustering
 * helpers sit beside the matcher.
 */
module FoundationDetection {
  import opened Numeric
  import opened Wrappers
  import opened Models
  import opened Sorting
  import GridDetection

  /** A pile cap: a `ProvisionalElement` with a centre, a footprint and a vertical depth. */
  datatype Foundation = Foundation(
    center: Point2D,
    width: real,
    depth: real,
    foundationDepth: real,
    confidence: real,
    sourceLayer: Option<string>,
    predefinedType: string)

  const PileSize: real := 300.0
  const MatchTolerance: real := 10.0
  const RectangleConfidence: real := 0.90
  const BaseSlab: string := "BASESLAB"
  const DefaultFoundationDepth: real := 30150.0
  const DefaultMinLineLength: real := 200.0
  const DefaultMaxLineLength: real := 500.0
  const DefaultMaxGap: real := 100.0

  // ---------------------------------------------------------------- length filter

  /** The lines whose length lies in `[minLength, maxLength]`, in input order. */
  function InLengthRange(m: Math, minLength: real, maxLength: real, lines: seq<Line2D>): (r: seq<Line2D>)
    requires ValidMath(m)
    ensures |r| <= |lines|
    ensures forall k :: 0 <= k < |r| ==> r[k] in lines && minLength <= Length(m, r[k]) <= maxLength
  {
    if lines == [] then []
    else
      var init := InLengthRange(m, minLength, maxLength, lines[..|lines| - 1]);
      var l := lines[|lines| - 1];
      if minLength <= Length(m, l) <= maxLength then init + [l] else init
  }

  /** No line inside the range is dropped: both bounds are inclusive. */
  lemma {:induction false} InLengthRangeComplete(m: Math, minLength: real, maxLength: real, lines: seq<Line2D>)
    requires ValidMath(m)
    ensures forall l :: l in lines && minLength <= Length(m, l) <= maxLength ==> l in InLengthRange(m, minLength, maxLength, lines)
  {
    if lines != [] {
      var init := lines[..|lines| - 1];
      InLengthRangeComplete(m, minLength, maxLength, init);
      assert lines == init + [lines[|lines| - 1]];
    }
  }

  /** The length-filter loop of `detect_foundations`. */
  method FilterByLength(m: Math, minLength: real, maxLength: real, lines: seq<Line2D>) returns (filtered: seq<Line2D>)
    requires ValidMath(m)
    ensures filtered == InLengthRange(m, minLength, maxLength, lines)
  {
    filtered := [];
    var i := 0;
    while i < |lines|
      invariant 0 <= i <= |lines|
      invariant filtered == InLengthRange(m, minLength, maxLength, lines[..i])
    {
      assert lines[..i + 1][..i] == lines[..i];
      var length := Length(m, lines[i]);
      if minLength <= length <= maxLength {
        filtered := filtered + [lines[i]];
      }
      i := i + 1;
    }
    assert lines[..i] == lines;
  }

  // ---------------------------------------------------------------- orientation split

  /** A line counts as horizontal when its x extent is strictly larger than its y extent. */
  predicate IsWide(l: Line2D)
  {
    Abs(l.end.x - l.start.x) > Abs(l.end.y - l.start.y)
  }

  function HorizontalLines(lines: seq<Line2D>): (r: seq<Line2D>)
    ensures |r| <= |lines|
    ensures forall k :: 0 <= k < |r| ==> r[k] in lines && IsWide(r[k])
  {
    if lines == [] then []
    else
      var init := HorizontalLines(lines[..|lines| - 1]);
      var l := lines[|lines| - 1];
      if IsWide(l) then init + [l] else init
  }

  function VerticalLines(lines: seq<Line2D>): (r: seq<Line2D>)
    ensures |r| <= |lines|
    ensures forall k :: 0 <= k < |r| ==> r[k] in lines && !IsWide(r[k])
  {
    if lines == [] then []
    else
      var init := VerticalLines(lines[..|lines| - 1]);
      var l := lines[|lines| - 1];
      if IsWide(l) then init else init + [l]
  }

  /** The two sets together hold every input line exactly as often as the input does. */
  lemma {:induction false} SplitPartition(lines: seq<Line2D>)
    ensures multiset(HorizontalLines(lines)) + multiset(VerticalLines(lines)) == multiset(lines)
    ensures |HorizontalLines(lines)| + |VerticalLines(lines)| == |lines|
  {
    if lines != [] {
      var init := lines[..|lines| - 1];
      var l := lines[|lines| - 1];
      SplitPartition(init);
      assert lines == init + [l];
      assert multiset(lines) == multiset(init) + multiset{l};
      if IsWide(l) {
        assert HorizontalLines(lines) == HorizontalLines(init) + [l];
        assert VerticalLines(lines) == VerticalLines(init);
      } else {
        assert HorizontalLines(lines) == HorizontalLines(init);
        assert VerticalLines(lines) == VerticalLines(init) + [l];
      }
    }
  }

  /** Splitting a concatenation splits each part: the split keeps input order. */
  lemma {:induction false} SplitAppend(a: seq<Line2D>, b: seq<Line2D>)
    ensures HorizontalLines(a + b) == HorizontalLines(a) + HorizontalLines(b)
    ensures VerticalLines(a + b) == VerticalLines(a) + VerticalLines(b)
    decreases |b|
  {
    if b == [] {
      assert a + b == a;
    } else {
      var init, l := b[..|b| - 1], b[|b| - 1];
      assert b == init + [l];
      SplitAppend(a, init);
      SplitAppendStep(a, init, l);
    }
  }

  lemma SplitAppendStep(a: seq<Line2D>, b: seq<Line2D>, l: Line2D)
    requires HorizontalLines(a + b) == HorizontalLines(a) + HorizontalLines(b)
    requires VerticalLines(a + b) == VerticalLines(a) + VerticalLines(b)
    ensures HorizontalLines(a + (b + [l])) == HorizontalLines(a) + HorizontalLines(b + [l])
    ensures VerticalLines(a + (b + [l])) == VerticalLines(a) + VerticalLines(b + [l])
  {
    ConcatAssoc(a, b, [l]);
    OrientationSnoc(a + b, l);
    OrientationSnoc(b, l);
    if IsWide(l) {
      ConcatAssoc(HorizontalLines(a), HorizontalLines(b), [l]);
    } else {
      ConcatAssoc(VerticalLines(a), VerticalLines(b), [l]);
    }
  }

  /** Appending a line adds it to the side its orientation picks. */
  lemma OrientationSnoc(s: seq<Line2D>, l: Line2D)
    ensures HorizontalLines(s + [l]) == if IsWide(l) then HorizontalLines(s) + [l] else HorizontalLines(s)
    ensures VerticalLines(s + [l]) == if IsWide(l) then VerticalLines(s) else VerticalLines(s) + [l]
  {
    assert (s + [l])[..|s|] == s;
  }

  /** The first loop of `group_lines_into_foundations`. */
  method SplitByOrientation(lines: seq<Line2D>) returns (horizontal: seq<Line2D>, vertical: seq<Line2D>)
    ensures horizontal == HorizontalLines(lines)
    ensures vertical == VerticalLines(lines)
  {
    horizontal, vertical := [], [];
    var i := 0;
    while i < |lines|
      invariant 0 <= i <= |lines|
      invariant horizontal == HorizontalLines(lines[..i])
      invariant vertical == VerticalLines(lines[..i])
    {
      assert lines[..i + 1][..i] == lines[..i];
      var line := lines[i];
      var dx := Abs(line.end.x - line.start.x);
      var dy := Abs(line.end.y - line.start.y);
      if dx > dy {
        horizontal := horizontal + [line];
      } else {
        vertical := vertical + [line];
      }
      i := i + 1;
    }
    assert lines[..i] == lines;
  }

  // ---------------------------------------------------------------- rectangle tests

  function XMin(l: Line2D): real { Min(l.start.x, l.end.x) }
  function XMax(l: Line2D): real { Max(l.start.x, l.end.x) }
  function YMin(l: Line2D): real { Min(l.start.y, l.end.y) }
  function YMax(l: Line2D): real { Max(l.start.y, l.end.y) }
  function MidX(l: Line2D): real { (l.start.x + l.end.x) / 2.0 }
  function MidY(l: Line2D): real { (l.start.y + l.end.y) / 2.0 }

  /** `l2` can be the opposite side of `l1`: same x extent within tolerance, about one pile size away in y. */
  predicate OppositeSide(l1: Line2D, l2: Line2D)
  {
    && Abs(XMin(l1) - XMin(l2)) < MatchTolerance
    && Abs(XMax(l1) - XMax(l2)) < MatchTolerance
    && Abs(Abs(MidY(l2) - MidY(l1)) - PileSize) < MatchTolerance
  }

  /** `l3` spans the y range between `l1` and `l2` and stands at either x end of `l1`. */
  predicate Connects(l1: Line2D, l2: Line2D, l3: Line2D)
  {
    && Abs(YMin(l3) - Min(MidY(l1), MidY(l2))) < MatchTolerance
    && Abs(YMax(l3) - Max(MidY(l1), MidY(l2))) < MatchTolerance
    && (Abs(MidX(l3) - XMin(l1)) < MatchTolerance || Abs(MidX(l3) - XMax(l1)) < MatchTolerance)
  }

  lemma OppositeSideSymmetric(l1: Line2D, l2: Line2D)
    ensures OppositeSide(l1, l2) <==> OppositeSide(l2, l1)
  {
    assert Abs(MidY(l2) - MidY(l1)) == Abs(MidY(l1) - MidY(l2));
    assert Abs(XMin(l1) - XMin(l2)) == Abs(XMin(l2) - XMin(l1));
    assert Abs(XMax(l1) - XMax(l2)) == Abs(XMax(l2) - XMax(l1));
  }

  // ---------------------------------------------------------------- used-index state

  /**
   * The indices already consumed. `Shared` is the single set the source keeps for both the
   * horizontal and the vertical index spaces; `Separate` keeps one set per space.
   */
  datatype Used = Shared(all: set<nat>) | Separate(horizontal: set<nat>, vertical: set<nat>)

  /** The indices a horizontal line is checked against. */
  function UsedH(u: Used): set<nat>
  {
    match u
    case Shared(s) => s
    case Separate(h, _) => h
  }

  /** The indices a vertical line is checked against. */
  function UsedV(u: Used): set<nat>
  {
    match u
    case Shared(s) => s
    case Separate(_, v) => v
  }

  /** A matched rectangle: two horizontal and two vertical indices. */
  datatype Rectangle = Rectangle(h1: nat, h2: nat, v1: nat, v2: nat)

  /** Marking a rectangle's four lines as used. */
  function Mark(u: Used, rect: Rectangle): (r: Used)
    ensures UsedH(u) + {rect.h1, rect.h2} <= UsedH(r)
    ensures UsedV(u) + {rect.v1, rect.v2} <= UsedV(r)
    ensures r.Shared? == u.Shared?
  {
    match u
    case Shared(s) => Shared(s + {rect.h1, rect.h2, rect.v1, rect.v2})
    case Separate(h, v) => Separate(h + {rect.h1, rect.h2}, v + {rect.v1, rect.v2})
  }

  // ---------------------------------------------------------------- searches

  /** The first unused `j >= from`, other than `i`, whose line is the opposite side of line `i`. */
  function FindOpposite(hs: seq<Line2D>, i: nat, usedH: set<nat>, from: nat): (r: Option<nat>)
    requires i < |hs|
    ensures r.Some? ==> from <= r.value < |hs| && r.value != i && r.value !in usedH && OppositeSide(hs[i], hs[r.value])
    ensures r.Some? ==> forall j :: from <= j < r.value && j != i && j !in usedH ==> !OppositeSide(hs[i], hs[j])
    ensures r.None? ==> forall j :: from <= j < |hs| && j != i && j !in usedH ==> !OppositeSide(hs[i], hs[j])
    decreases |hs| - from
  {
    if from >= |hs| then None
    else if from !in usedH && from != i && OppositeSide(hs[i], hs[from]) then Some(from)
    else FindOpposite(hs, i, usedH, from + 1)
  }

  /** All unused vertical indices `k >= from` whose line connects `l1` and `l2`, in increasing order. */
  function Connectors(l1: Line2D, l2: Line2D, vs: seq<Line2D>, usedV: set<nat>, from: nat): (r: seq<nat>)
    decreases |vs| - from
  {
    if from >= |vs| then []
    else if from !in usedV && Connects(l1, l2, vs[from]) then [from] + Connectors(l1, l2, vs, usedV, from + 1)
    else Connectors(l1, l2, vs, usedV, from + 1)
  }

  /** The connectors are exactly the usable indices from `from` on, in increasing order. */
  lemma {:induction false} ConnectorsFacts(l1: Line2D, l2: Line2D, vs: seq<Line2D>, usedV: set<nat>, from: nat)
    ensures var r := Connectors(l1, l2, vs, usedV, from);
      && (forall a :: 0 <= a < |r| ==> from <= r[a] < |vs| && r[a] !in usedV && Connects(l1, l2, vs[r[a]]))
      && (forall a, b :: 0 <= a < b < |r| ==> r[a] < r[b])
      && (forall k :: from <= k < |vs| && k !in usedV && Connects(l1, l2, vs[k]) ==> k in r)
    decreases |vs| - from
  {
    if from < |vs| {
      ConnectorsFacts(l1, l2, vs, usedV, from + 1);
    }
  }

  /** The `j` loop: a `for` over the horizontal lines that stops at the first match. */
  method FindOppositeLine(hs: seq<Line2D>, i: nat, usedH: set<nat>) returns (found: Option<nat>)
    requires i < |hs|
    ensures found == FindOpposite(hs, i, usedH, 0)
  {
    var line1 := hs[i];
    var j := 0;
    while j < |hs|
      invariant 0 <= j <= |hs|
      invariant FindOpposite(hs, i, usedH, j) == FindOpposite(hs, i, usedH, 0)
    {
      if j !in usedH && j != i {
        var line2 := hs[j];
        if OppositeSide(line1, line2) {
          return Some(j);
        }
      }
      j := j + 1;
    }
    return None;
  }

  /** The `k` loop: collects connecting vertical lines and stops once it has two. */
  method FindConnectorLines(l1: Line2D, l2: Line2D, vs: seq<Line2D>, usedV: set<nat>) returns (found: seq<nat>)
    ensures var c := Connectors(l1, l2, vs, usedV, 0);
      found == if |c| >= 2 then c[..2] else c
  {
    ghost var c := Connectors(l1, l2, vs, usedV, 0);
    found := [];
    var k := 0;
    while k < |vs|
      invariant 0 <= k <= |vs|
      invariant |found| < 2
      invariant found + Connectors(l1, l2, vs, usedV, k) == c
    {
      if k !in usedV && Connects(l1, l2, vs[k]) {
        assert Connectors(l1, l2, vs, usedV, k) == [k] + Connectors(l1, l2, vs, usedV, k + 1);
        found := found + [k];
        if |found| >= 2 {
          assert c == found + Connectors(l1, l2, vs, usedV, k + 1);
          assert c[..2] == found;
          return;
        }
      }
      k := k + 1;
    }
    assert found == c;
  }

  // ---------------------------------------------------------------- greedy matching

  /** Every rectangle's horizontal indices lie below `n`. */
  ghost predicate Bounded(ms: seq<Rectangle>, n: nat)
  {
    forall a :: 0 <= a < |ms| ==> ms[a].h1 < n && ms[a].h2 < n
  }

  /**
   * The rectangle the outer loop forms at horizontal index `i`: none when `i` is used,
   * when no opposite side is found, or when fewer than two connecting verticals are.
   */
  function StepAt(hs: seq<Line2D>, vs: seq<Line2D>, i: nat, u: Used): (r: Option<Rectangle>)
    requires i < |hs|
    ensures r.Some? ==> r.value.h1 == i && r.value.h2 < |hs|
  {
    if i in UsedH(u) then None
    else
      match FindOpposite(hs, i, UsedH(u), 0)
      case None => None
      case Some(j) =>
        var c := Connectors(hs[i], hs[j], vs, UsedV(u), 0);
        if |c| < 2 then None else Some(Rectangle(i, j, c[0], c[1]))
  }

  /** The rectangles the outer loop matches from horizontal index `i` on, given the indices already used. */
  function Matches(hs: seq<Line2D>, vs: seq<Line2D>, i: nat, u: Used): (r: seq<Rectangle>)
    ensures Bounded(r, |hs|)
    decreases |hs| - i
  {
    if i >= |hs| then []
    else
      match StepAt(hs, vs, i, u)
      case None => Matches(hs, vs, i + 1, u)
      case Some(rect) => [rect] + Matches(hs, vs, i + 1, Mark(u, rect))
  }

  /** The foundation placed at the centre of the rectangle whose horizontal sides are `l1` and `l2`. */
  function MakeFoundation(l1: Line2D, l2: Line2D, foundationDepth: real, layer: string): Foundation
  {
    Foundation(
      Point2D((XMin(l1) + XMax(l1)) / 2.0, (MidY(l1) + MidY(l2)) / 2.0),
      PileSize, PileSize, foundationDepth, RectangleConfidence, Some(layer), BaseSlab)
  }

  function Build(hs: seq<Line2D>, foundationDepth: real, layer: string, ms: seq<Rectangle>): (r: seq<Foundation>)
    requires Bounded(ms, |hs|)
    ensures |r| == |ms|
  {
    seq(|ms|, a requires 0 <= a < |ms| => MakeFoundation(hs[ms[a].h1], hs[ms[a].h2], foundationDepth, layer))
  }

  /** The foundations grouped from `lines` with the given initial used-index state. */
  function GroupSpec(lines: seq<Line2D>, foundationDepth: real, init: Used): seq<Foundation>
  {
    if lines == [] then []
    else
      var hs := HorizontalLines(lines);
      Build(hs, foundationDepth, lines[0].layer, Matches(hs, VerticalLines(lines), 0, init))
  }

  /** `group_lines_into_foundations` as written: one used set for both index spaces. */
  function GroupAsWritten(lines: seq<Line2D>, foundationDepth: real): (r: seq<Foundation>)
    ensures 2 * |r| <= |HorizontalLines(lines)| && 2 * |r| <= |VerticalLines(lines)|
  {
    FoundationsDisjoint(lines, foundationDepth, Shared({}));
    GroupSpec(lines, foundationDepth, Shared({}))
  }

  /** The grouping the code evidently means: one used set per index space. */
  function GroupCorrected(lines: seq<Line2D>, foundationDepth: real): (r: seq<Foundation>)
    ensures 2 * |r| <= |HorizontalLines(lines)| && 2 * |r| <= |VerticalLines(lines)|
  {
    FoundationsDisjoint(lines, foundationDepth, Separate({}, {}));
    GroupSpec(lines, foundationDepth, Separate({}, {}))
  }

  /** The outer loop over the horizontal lines, from a given used-index state. */
  method GroupRectangles(hs: seq<Line2D>, vs: seq<Line2D>, foundationDepth: real, layer: string, init: Used)
    returns (foundations: seq<Foundation>)
    ensures foundations == Build(hs, foundationDepth, layer, Matches(hs, vs, 0, init))
  {
    foundations := [];
    var used := init;
    ghost var done: seq<Rectangle> := [];
    var i := 0;
    while i < |hs|
      invariant 0 <= i <= |hs|
      invariant done + Matches(hs, vs, i, used) == Matches(hs, vs, 0, init)
      invariant Bounded(done, |hs|)
      invariant foundations == Build(hs, foundationDepth, layer, done)
    {
      var rect := FormRectangle(hs, vs, i, used);
      ghost var used0, done0, foundations0 := used, done, foundations;
      if rect.Some? {
        foundations := foundations + [MakeFoundation(hs[rect.value.h1], hs[rect.value.h2], foundationDepth, layer)];
        used := Mark(used, rect.value);
        done := done + [rect.value];
      }
      GroupStep(hs, vs, foundationDepth, layer, i, used0, done0, foundations0, rect, used, done, foundations);
      i := i + 1;
    }
  }

  /** The body of the outer loop at `i`: an unused line, its opposite side, and two connecting verticals. */
  method FormRectangle(hs: seq<Line2D>, vs: seq<Line2D>, i: nat, used: Used) returns (rect: Option<Rectangle>)
    requires i < |hs|
    ensures rect == StepAt(hs, vs, i, used)
  {
    rect := None;
    if i !in UsedH(used) {
      var opposite := FindOppositeLine(hs, i, UsedH(used));
      if opposite.Some? {
        var j := opposite.value;
        var sides := FindConnectorLines(hs[i], hs[j], vs, UsedV(used));
        if |sides| >= 2 {
          rect := Some(Rectangle(i, j, sides[0], sides[1]));
        }
      }
    }
  }

  /** One turn of the outer loop keeps the matched rectangles and the foundations built from them in step with the specification. */
  lemma GroupStep(hs: seq<Line2D>, vs: seq<Line2D>, foundationDepth: real, layer: string, i: nat,
                  used: Used, done: seq<Rectangle>, foundations: seq<Foundation>, step: Option<Rectangle>,
                  used': Used, done': seq<Rectangle>, foundations': seq<Foundation>)
    requires i < |hs| && step == StepAt(hs, vs, i, used)
    requires Bounded(done, |hs|) && foundations == Build(hs, foundationDepth, layer, done)
    requires step.None? ==> used' == used && done' == done && foundations' == foundations
    requires step.Some? ==> && used' == Mark(used, step.value) && done' == done + [step.value]
                            && foundations' == foundations + [MakeFoundation(hs[step.value.h1], hs[step.value.h2], foundationDepth, layer)]
    ensures done' + Matches(hs, vs, i + 1, used') == done + Matches(hs, vs, i, used)
    ensures Bounded(done', |hs|) && foundations' == Build(hs, foundationDepth, layer, done')
  {
    MatchesUnfold(hs, vs, i, used);
    if step.Some? {
      ConcatAssoc(done, [step.value], Matches(hs, vs, i + 1, used'));
      assert foundations' == Build(hs, foundationDepth, layer, done');
    }
  }

  /** `group_lines_into_foundations` as written, with its one `used_lines` set for both index spaces. */
  method GroupLinesIntoFoundations(lines: seq<Line2D>, foundationDepth: real) returns (foundations: seq<Foundation>)
    ensures foundations == GroupAsWritten(lines, foundationDepth)
  {
    var horizontal, vertical := SplitByOrientation(lines);
    if |lines| == 0 {
      return [];
    }
    foundations := GroupRectangles(horizontal, vertical, foundationDepth, lines[0].layer, Shared({}));
  }

  /** What `detect_foundations` returns once the foundation-layer lines are extracted. */
  function DetectSpec(m: Math, lines: seq<Line2D>, foundationDepth: real, minLength: real, maxLength: real): seq<Foundation>
    requires ValidMath(m)
  {
    GroupAsWritten(InLengthRange(m, minLength, maxLength, lines), foundationDepth)
  }

  /** The part of `detect_foundations` after line extraction: filter by length, then group. */
  method DetectFoundations(m: Math, lines: seq<Line2D>, foundationDepth: real, minLength: real, maxLength: real)
    returns (foundations: seq<Foundation>)
    requires ValidMath(m)
    ensures foundations == DetectSpec(m, lines, foundationDepth, minLength, maxLength)
  {
    var filtered := FilterByLength(m, minLength, maxLength, lines);
    if |filtered| == 0 {
      return [];
    }
    foundations := GroupLinesIntoFoundations(filtered, foundationDepth);
  }

  // ---------------------------------------------------------------- properties of the matching

  /** The four source conditions for a rectangle: distinct opposite horizontals and two connecting verticals. */
  ghost predicate ValidRect(hs: seq<Line2D>, vs: seq<Line2D>, rect: Rectangle)
  {
    && rect.h1 < |hs| && rect.h2 < |hs| && rect.h1 != rect.h2
    && rect.v1 < rect.v2 < |vs|
    && OppositeSide(hs[rect.h1], hs[rect.h2])
    && Connects(hs[rect.h1], hs[rect.h2], vs[rect.v1])
    && Connects(hs[rect.h1], hs[rect.h2], vs[rect.v2])
  }

  /** None of the rectangle's lines is in the used state. */
  predicate Fresh(rect: Rectangle, u: Used)
  {
    rect.h1 !in UsedH(u) && rect.h2 !in UsedH(u) && rect.v1 !in UsedV(u) && rect.v2 !in UsedV(u)
  }

  ghost predicate AllValidFresh(hs: seq<Line2D>, vs: seq<Line2D>, ms: seq<Rectangle>, u: Used)
  {
    forall a :: 0 <= a < |ms| ==> ValidRect(hs, vs, ms[a]) && Fresh(ms[a], u)
  }

  /** No horizontal index and no vertical index belongs to two rectangles. */
  ghost predicate Disjoint(ms: seq<Rectangle>)
  {
    forall a, b :: 0 <= a < b < |ms| ==>
      && ms[b].h1 != ms[a].h1 && ms[b].h1 != ms[a].h2 && ms[b].h2 != ms[a].h1 && ms[b].h2 != ms[a].h2
      && ms[b].v1 != ms[a].v1 && ms[b].v1 != ms[a].v2 && ms[b].v2 != ms[a].v1 && ms[b].v2 != ms[a].v2
  }

  /** A rectangle the outer loop forms meets the source's conditions and uses only unused lines. */
  lemma StepAtFacts(hs: seq<Line2D>, vs: seq<Line2D>, i: nat, u: Used)
    requires i < |hs|
    ensures StepAt(hs, vs, i, u).Some? ==>
      ValidRect(hs, vs, StepAt(hs, vs, i, u).value) && Fresh(StepAt(hs, vs, i, u).value, u)
  {
    if i !in UsedH(u) {
      match FindOpposite(hs, i, UsedH(u), 0)
      case None =>
      case Some(j) =>
        ConnectorsFacts(hs[i], hs[j], vs, UsedV(u), 0);
    }
  }

  /** Putting a fresh valid rectangle in front of rectangles fresh after marking it keeps both properties. */
  lemma ConsFacts(hs: seq<Line2D>, vs: seq<Line2D>, rect: Rectangle, rest: seq<Rectangle>, u: Used)
    requires ValidRect(hs, vs, rect) && Fresh(rect, u)
    requires AllValidFresh(hs, vs, rest, Mark(u, rect)) && Disjoint(rest)
    ensures AllValidFresh(hs, vs, [rect] + rest, u) && Disjoint([rect] + rest)
  {
    ConsValidFresh(hs, vs, rect, rest, u);
    ConsDisjoint(rect, rest, u);
  }

  lemma ConsValidFresh(hs: seq<Line2D>, vs: seq<Line2D>, rect: Rectangle, rest: seq<Rectangle>, u: Used)
    requires ValidRect(hs, vs, rect) && Fresh(rect, u)
    requires AllValidFresh(hs, vs, rest, Mark(u, rect))
    ensures AllValidFresh(hs, vs, [rect] + rest, u)
  {
    var ms := [rect] + rest;
    var u2 := Mark(u, rect);
    forall a | 0 <= a < |ms| ensures ValidRect(hs, vs, ms[a]) && Fresh(ms[a], u) {
      if a > 0 {
        assert ms[a] == rest[a - 1];
        assert Fresh(rest[a - 1], u2);
      }
    }
  }

  lemma ConsDisjoint(rect: Rectangle, rest: seq<Rectangle>, u: Used)
    requires forall a :: 0 <= a < |rest| ==> Fresh(rest[a], Mark(u, rect))
    requires Disjoint(rest)
    ensures Disjoint([rect] + rest)
  {
    var ms := [rect] + rest;
    var u2 := Mark(u, rect);
    forall a, b | 0 <= a < b < |ms|
      ensures && ms[b].h1 != ms[a].h1 && ms[b].h1 != ms[a].h2 && ms[b].h2 != ms[a].h1 && ms[b].h2 != ms[a].h2
              && ms[b].v1 != ms[a].v1 && ms[b].v1 != ms[a].v2 && ms[b].v2 != ms[a].v1 && ms[b].v2 != ms[a].v2
    {
      assert ms[b] == rest[b - 1];
      assert Fresh(rest[b - 1], u2);
      if a > 0 {
        assert ms[a] == rest[a - 1];
      }
    }
  }

  /** Every matched rectangle meets the source's conditions, uses only unused lines, and shares no line with another. */
  lemma {:induction false} MatchesFacts(hs: seq<Line2D>, vs: seq<Line2D>, i: nat, u: Used)
    ensures AllValidFresh(hs, vs, Matches(hs, vs, i, u), u)
    ensures Disjoint(Matches(hs, vs, i, u))
    decreases |hs| - i
  {
    if i < |hs| {
      StepAtFacts(hs, vs, i, u);
      match StepAt(hs, vs, i, u)
      case None =>
        MatchesFacts(hs, vs, i + 1, u);
      case Some(rect) =>
        MatchesFacts(hs, vs, i + 1, Mark(u, rect));
        ConsFacts(hs, vs, rect, Matches(hs, vs, i + 1, Mark(u, rect)), u);
    }
  }

  /** How many indices below `n` are not in `s`. */
  function CountUnused(n: nat, s: set<nat>): (r: nat)
    ensures r <= n
  {
    if n == 0 then 0 else CountUnused(n - 1, s) + (if n - 1 in s then 0 else 1)
  }

  lemma {:induction false} CountUnusedMono(n: nat, a: set<nat>, b: set<nat>)
    requires a <= b
    ensures CountUnused(n, b) <= CountUnused(n, a)
  {
    if n > 0 {
      CountUnusedMono(n - 1, a, b);
    }
  }

  lemma {:induction false} CountUnusedRemove(n: nat, a: set<nat>, x: nat)
    requires x < n && x !in a
    ensures CountUnused(n, a + {x}) + 1 == CountUnused(n, a)
  {
    if x < n - 1 {
      CountUnusedRemove(n - 1, a, x);
    } else {
      CountUnusedSame(n - 1, a, x);
    }
  }

  lemma {:induction false} CountUnusedSame(n: nat, a: set<nat>, x: nat)
    requires n <= x
    ensures CountUnused(n, a + {x}) == CountUnused(n, a)
  {
    if n > 0 {
      CountUnusedSame(n - 1, a, x);
    }
  }

  lemma CountUnusedEmpty(n: nat)
    ensures CountUnused(n, {}) == n
  {
  }

  /** Consuming two distinct unused indices below `n` lowers the unused count by two. */
  lemma CountUnusedTwo(n: nat, a: set<nat>, b: set<nat>, x: nat, y: nat)
    requires x < n && y < n && x != y && x !in a && y !in a && a + {x, y} <= b
    ensures CountUnused(n, b) + 2 <= CountUnused(n, a)
  {
    CountUnusedRemove(n, a, x);
    CountUnusedRemove(n, a + {x}, y);
    assert a + {x} + {y} == a + {x, y};
    CountUnusedMono(n, a + {x, y}, b);
  }

  /** Each rectangle consumes two unused horizontal and two unused vertical indices. */
  lemma {:induction false} MatchesCount(hs: seq<Line2D>, vs: seq<Line2D>, i: nat, u: Used)
    ensures 2 * |Matches(hs, vs, i, u)| <= CountUnused(|hs|, UsedH(u))
    ensures 2 * |Matches(hs, vs, i, u)| <= CountUnused(|vs|, UsedV(u))
    decreases |hs| - i
  {
    if i < |hs| {
      MatchesCount(hs, vs, i + 1, NextUsed(hs, vs, i, u));
      MatchesCountAt(hs, vs, i, u);
    } else {
      assert |Matches(hs, vs, i, u)| == 0;
    }
  }

  /** The used-index state after the outer loop's turn at `i`. */
  function NextUsed(hs: seq<Line2D>, vs: seq<Line2D>, i: nat, u: Used): Used
    requires i < |hs|
  {
    match StepAt(hs, vs, i, u)
    case None => u
    case Some(rect) => Mark(u, rect)
  }

  /** The count bound at `i` from the bound after the turn at `i`. */
  lemma MatchesCountAt(hs: seq<Line2D>, vs: seq<Line2D>, i: nat, u: Used)
    requires i < |hs|
    requires var u2 := NextUsed(hs, vs, i, u);
      2 * |Matches(hs, vs, i + 1, u2)| <= CountUnused(|hs|, UsedH(u2)) && 2 * |Matches(hs, vs, i + 1, u2)| <= CountUnused(|vs|, UsedV(u2))
    ensures 2 * |Matches(hs, vs, i, u)| <= CountUnused(|hs|, UsedH(u))
    ensures 2 * |Matches(hs, vs, i, u)| <= CountUnused(|vs|, UsedV(u))
  {
    MatchesUnfold(hs, vs, i, u);
    if StepAt(hs, vs, i, u).Some? {
      StepAtCount(hs, vs, i, u, |Matches(hs, vs, i + 1, NextUsed(hs, vs, i, u))|);
    }
  }

  lemma MatchesUnfold(hs: seq<Line2D>, vs: seq<Line2D>, i: nat, u: Used)
    requires i < |hs|
    ensures StepAt(hs, vs, i, u).None? ==> Matches(hs, vs, i, u) == Matches(hs, vs, i + 1, u)
    ensures StepAt(hs, vs, i, u).Some? ==>
      Matches(hs, vs, i, u) == [StepAt(hs, vs, i, u).value] + Matches(hs, vs, i + 1, Mark(u, StepAt(hs, vs, i, u).value))
  {
  }

  /** The rectangle formed at `i` consumes two unused lines of each orientation. */
  lemma StepAtCount(hs: seq<Line2D>, vs: seq<Line2D>, i: nat, u: Used, k: nat)
    requires i < |hs| && StepAt(hs, vs, i, u).Some?
    requires var u2 := Mark(u, StepAt(hs, vs, i, u).value);
      2 * k <= CountUnused(|hs|, UsedH(u2)) && 2 * k <= CountUnused(|vs|, UsedV(u2))
    ensures 2 * (k + 1) <= CountUnused(|hs|, UsedH(u)) && 2 * (k + 1) <= CountUnused(|vs|, UsedV(u))
  {
    StepAtFacts(hs, vs, i, u);
    MarkCountStep(|hs|, |vs|, u, StepAt(hs, vs, i, u).value, k);
  }

  /** Marking a fresh rectangle's lines lowers both unused counts by at least two. */
  lemma MarkCountStep(nh: nat, nv: nat, u: Used, rect: Rectangle, k: nat)
    requires rect.h1 < nh && rect.h2 < nh && rect.h1 != rect.h2 && rect.v1 < rect.v2 < nv && Fresh(rect, u)
    requires 2 * k <= CountUnused(nh, UsedH(Mark(u, rect))) && 2 * k <= CountUnused(nv, UsedV(Mark(u, rect)))
    ensures 2 * (k + 1) <= CountUnused(nh, UsedH(u)) && 2 * (k + 1) <= CountUnused(nv, UsedV(u))
  {
    var u2 := Mark(u, rect);
    CountUnusedTwo(nh, UsedH(u), UsedH(u2), rect.h1, rect.h2);
    CountUnusedTwo(nv, UsedV(u), UsedV(u2), rect.v1, rect.v2);
  }

  /** Each foundation sits at the centre of a rectangle meeting the source's conditions, with the fixed attributes. */
  lemma FoundationFacts(lines: seq<Line2D>, foundationDepth: real, init: Used, k: nat)
    requires k < |GroupSpec(lines, foundationDepth, init)|
    ensures lines != []
    ensures var hs := HorizontalLines(lines);
      var vs := VerticalLines(lines);
      var ms := Matches(hs, vs, 0, init);
      k < |ms| && ValidRect(hs, vs, ms[k]) && Fresh(ms[k], init)
      && var f := GroupSpec(lines, foundationDepth, init)[k];
      && f.center == Point2D((XMin(hs[ms[k].h1]) + XMax(hs[ms[k].h1])) / 2.0, (MidY(hs[ms[k].h1]) + MidY(hs[ms[k].h2])) / 2.0)
      && f.width == PileSize && f.depth == PileSize && f.foundationDepth == foundationDepth
      && f.confidence == RectangleConfidence && f.sourceLayer == Some(lines[0].layer) && f.predefinedType == BaseSlab
  {
    MatchesFacts(HorizontalLines(lines), VerticalLines(lines), 0, init);
  }

  /** No line is matched twice, and there are at most half as many foundations as lines of either orientation. */
  lemma FoundationsDisjoint(lines: seq<Line2D>, foundationDepth: real, init: Used)
    ensures lines != [] ==> Disjoint(Matches(HorizontalLines(lines), VerticalLines(lines), 0, init))
    ensures UsedH(init) == {} ==> 2 * |GroupSpec(lines, foundationDepth, init)| <= |HorizontalLines(lines)|
    ensures UsedV(init) == {} ==> 2 * |GroupSpec(lines, foundationDepth, init)| <= |VerticalLines(lines)|
  {
    var hs := HorizontalLines(lines);
    var vs := VerticalLines(lines);
    MatchesFacts(hs, vs, 0, init);
    MatchesCount(hs, vs, 0, init);
    CountUnusedEmpty(|hs|);
    CountUnusedEmpty(|vs|);
  }

  // ---------------------------------------------------------------- the shared used set

  const PileLayer: string := "S-FNDN-HDLN"

  function Seg(x1: real, y1: real, x2: real, y2: real): Line2D
  {
    Line2D(Point2D(x1, y1), Point2D(x2, y2), PileLayer)
  }

  /** Horizontal sides of two 300 x 300 caps, side by side. */
  function CapSidesH(): seq<Line2D>
  {
    [Seg(0.0, 0.0, 300.0, 0.0), Seg(0.0, 300.0, 300.0, 300.0), Seg(1000.0, 0.0, 1300.0, 0.0), Seg(1000.0, 300.0, 1300.0, 300.0)]
  }

  /** Their vertical sides, the second cap's listed first. */
  function CapSidesV(): seq<Line2D>
  {
    [Seg(1000.0, 0.0, 1000.0, 300.0), Seg(1300.0, 0.0, 1300.0, 300.0), Seg(0.0, 0.0, 0.0, 300.0), Seg(300.0, 0.0, 300.0, 300.0)]
  }

  /** A sequence of wide lines is all horizontal. */
  lemma {:induction false} AllWide(ls: seq<Line2D>)
    requires forall k :: 0 <= k < |ls| ==> IsWide(ls[k])
    ensures HorizontalLines(ls) == ls && VerticalLines(ls) == []
  {
    if ls != [] {
      AllWide(ls[..|ls| - 1]);
    }
  }

  /** A sequence of lines none of which is wide is all vertical. */
  lemma {:induction false} NoneWide(ls: seq<Line2D>)
    requires forall k :: 0 <= k < |ls| ==> !IsWide(ls[k])
    ensures HorizontalLines(ls) == [] && VerticalLines(ls) == ls
  {
    if ls != [] {
      NoneWide(ls[..|ls| - 1]);
    }
  }

  lemma CapSidesSplit()
    ensures HorizontalLines(CapSidesH() + CapSidesV()) == CapSidesH()
    ensures VerticalLines(CapSidesH() + CapSidesV()) == CapSidesV()
  {
    var hs := CapSidesH();
    var vs := CapSidesV();
    SplitAppend(hs, vs);
    CapSidesOrientation();
    AllWide(hs);
    NoneWide(vs);
  }

  lemma CapSidesOrientation()
    ensures forall k :: 0 <= k < |CapSidesH()| ==> IsWide(CapSidesH()[k])
    ensures forall k :: 0 <= k < |CapSidesV()| ==> !IsWide(CapSidesV()[k])
  {
    var hs := CapSidesH();
    var vs := CapSidesV();
    assert IsWide(hs[0]) && IsWide(hs[1]) && IsWide(hs[2]) && IsWide(hs[3]);
    assert !IsWide(vs[0]) && !IsWide(vs[1]) && !IsWide(vs[2]) && !IsWide(vs[3]);
  }

  /** From an empty state, line 0 pairs with line 1 and verticals 2 and 3. */
  lemma FirstCapFound(u: Used)
    requires UsedH(u) == {} && UsedV(u) == {}
    ensures StepAt(CapSidesH(), CapSidesV(), 0, u) == Some(Rectangle(0, 1, 2, 3))
  {
    var hs := CapSidesH();
    var vs := CapSidesV();
    assert FindOpposite(hs, 0, {}, 1) == Some(1);
    assert FindOpposite(hs, 0, {}, 0) == Some(1);
    assert Connectors(hs[0], hs[1], vs, {}, 4) == [];
    assert Connectors(hs[0], hs[1], vs, {}, 3) == [3];
    assert Connectors(hs[0], hs[1], vs, {}, 2) == [2, 3];
    assert Connectors(hs[0], hs[1], vs, {}, 1) == [2, 3];
    assert Connectors(hs[0], hs[1], vs, {}, 0) == [2, 3];
  }

  /** With separate sets, line 2 then pairs with line 3 and verticals 0 and 1. */
  lemma SecondCapFound()
    ensures StepAt(CapSidesH(), CapSidesV(), 2, Separate({0, 1}, {2, 3})) == Some(Rectangle(2, 3, 0, 1))
  {
    var hs := CapSidesH();
    var vs := CapSidesV();
    assert FindOpposite(hs, 2, {0, 1}, 3) == Some(3);
    assert FindOpposite(hs, 2, {0, 1}, 0) == Some(3);
    assert Connectors(hs[2], hs[3], vs, {2, 3}, 2) == [];
    assert Connectors(hs[2], hs[3], vs, {2, 3}, 1) == [1];
    assert Connectors(hs[2], hs[3], vs, {2, 3}, 0) == [0, 1];
  }

  lemma AsWrittenMatches()
    ensures Matches(CapSidesH(), CapSidesV(), 0, Shared({})) == [Rectangle(0, 1, 2, 3)]
  {
    var hs := CapSidesH();
    var vs := CapSidesV();
    FirstCapFound(Shared({}));
    var shared := Mark(Shared({}), Rectangle(0, 1, 2, 3));
    assert shared == Shared({0, 1, 2, 3});
    assert Matches(hs, vs, 4, shared) == [];
    assert Matches(hs, vs, 3, shared) == [];
    assert Matches(hs, vs, 2, shared) == [];
    assert Matches(hs, vs, 1, shared) == [];
  }

  lemma CorrectedMatches()
    ensures Matches(CapSidesH(), CapSidesV(), 0, Separate({}, {})) == [Rectangle(0, 1, 2, 3), Rectangle(2, 3, 0, 1)]
  {
    var hs := CapSidesH();
    var vs := CapSidesV();
    FirstCapFound(Separate({}, {}));
    SecondCapFound();
    var separate := Mark(Separate({}, {}), Rectangle(0, 1, 2, 3));
    assert separate == Separate({0, 1}, {2, 3});
    var both := Mark(separate, Rectangle(2, 3, 0, 1));
    assert both == Separate({0, 1, 2, 3}, {0, 1, 2, 3});
    assert Matches(hs, vs, 4, both) == [];
    assert Matches(hs, vs, 3, both) == [];
    assert Matches(hs, vs, 2, separate) == [Rectangle(2, 3, 0, 1)];
    assert Matches(hs, vs, 1, separate) == [Rectangle(2, 3, 0, 1)];
  }

  /**
   * With one used set, the first cap's vertical indices 2 and 3 also mark the second
   * cap's horizontal lines 2 and 3 as used, so the second cap is never found; with
   * one set per index space both caps are found.
   */
  lemma SharedSetMissesRectangle()
    ensures |GroupAsWritten(CapSidesH() + CapSidesV(), DefaultFoundationDepth)| == 1
    ensures GroupCorrected(CapSidesH() + CapSidesV(), DefaultFoundationDepth)
      == [MakeFoundation(CapSidesH()[0], CapSidesH()[1], DefaultFoundationDepth, PileLayer),
          MakeFoundation(CapSidesH()[2], CapSidesH()[3], DefaultFoundationDepth, PileLayer)]
  {
    CapSidesSplit();
    CapsGrouped(CapSidesH() + CapSidesV(), Shared({}));
    CapsGrouped(CapSidesH() + CapSidesV(), Separate({}, {}));
    AsWrittenMatches();
    CorrectedMatches();
    BuildCaps([Rectangle(0, 1, 2, 3), Rectangle(2, 3, 0, 1)]);
  }

  lemma CapsGrouped(lines: seq<Line2D>, init: Used)
    requires lines == CapSidesH() + CapSidesV()
    requires HorizontalLines(lines) == CapSidesH() && VerticalLines(lines) == CapSidesV()
    ensures GroupSpec(lines, DefaultFoundationDepth, init)
      == Build(CapSidesH(), DefaultFoundationDepth, PileLayer, Matches(CapSidesH(), CapSidesV(), 0, init))
  {
    assert lines[0] == CapSidesH()[0];
  }

  lemma BuildCaps(ms: seq<Rectangle>)
    requires ms == [Rectangle(0, 1, 2, 3), Rectangle(2, 3, 0, 1)]
    ensures Build(CapSidesH(), DefaultFoundationDepth, PileLayer, ms)
      == [MakeFoundation(CapSidesH()[0], CapSidesH()[1], DefaultFoundationDepth, PileLayer),
          MakeFoundation(CapSidesH()[2], CapSidesH()[3], DefaultFoundationDepth, PileLayer)]
  {
  }

  /** Every line of every detected rectangle passed the length filter. */
  lemma DetectedRectangleLengths(m: Math, lines: seq<Line2D>, foundationDepth: real, minLength: real, maxLength: real, k: nat)
    requires ValidMath(m)
    requires k < |DetectSpec(m, lines, foundationDepth, minLength, maxLength)|
    ensures var filtered := InLengthRange(m, minLength, maxLength, lines);
      var hs := HorizontalLines(filtered);
      var vs := VerticalLines(filtered);
      var rect := Matches(hs, vs, 0, Shared({}))[k];
      && rect.h1 < |hs| && rect.h2 < |hs| && rect.v1 < |vs| && rect.v2 < |vs|
      && hs[rect.h1] in lines && hs[rect.h2] in lines && vs[rect.v1] in lines && vs[rect.v2] in lines
      && minLength <= Length(m, hs[rect.h1]) <= maxLength && minLength <= Length(m, hs[rect.h2]) <= maxLength
      && minLength <= Length(m, vs[rect.v1]) <= maxLength && minLength <= Length(m, vs[rect.v2]) <= maxLength
  {
    var filtered := InLengthRange(m, minLength, maxLength, lines);
    FoundationFacts(filtered, foundationDepth, Shared({}), k);
  }

  // ---------------------------------------------------------------- 1-D clustering

  function Flatten<T>(cs: seq<seq<T>>): seq<T>
  {
    if cs == [] then [] else Flatten(cs[..|cs| - 1]) + cs[|cs| - 1]
  }

  lemma {:induction false} FlattenMember<T>(cs: seq<seq<T>>, a: nat, x: T)
    requires a < |cs| && x in cs[a]
    ensures x in Flatten(cs)
  {
    if a < |cs| - 1 {
      FlattenMember(cs[..|cs| - 1], a, x);
    }
  }

  /**
   * Splits a non-empty sequence into runs: a new run starts wherever an element's key
   * exceeds the previous element's key by more than `maxGap`.
   */
  function GapClusters<T>(s: seq<T>, key: T -> real, maxGap: real): (r: seq<seq<T>>)
    requires s != []
    ensures r != [] && |r| <= |s|
    ensures forall a :: 0 <= a < |r| ==> r[a] != []
    ensures r[|r| - 1][|r[|r| - 1]| - 1] == s[|s| - 1]
    decreases |s|
  {
    if |s| == 1 then [[s[0]]]
    else
      var init := GapClusters(s[..|s| - 1], key, maxGap);
      var x := s[|s| - 1];
      if key(x) - key(s[|s| - 2]) <= maxGap then init[..|init| - 1] + [init[|init| - 1] + [x]]
      else init + [[x]]
  }

  /** Appending an element either extends the last run or starts a new one. */
  lemma GapClustersSnoc<T>(s0: seq<T>, x: T, key: T -> real, maxGap: real)
    requires s0 != []
    ensures var init := GapClusters(s0, key, maxGap);
      GapClusters(s0 + [x], key, maxGap)
        == if key(x) - key(s0[|s0| - 1]) <= maxGap then init[..|init| - 1] + [init[|init| - 1] + [x]] else init + [[x]]
  {
    var s := s0 + [x];
    assert s[..|s| - 1] == s0;
    assert s[|s| - 2] == s0[|s0| - 1];
  }

  /** The same step at a prefix boundary, with the runs so far split into the closed ones and the current one. */
  lemma GapClustersStep<T>(s: seq<T>, key: T -> real, maxGap: real, i: nat, front: seq<seq<T>>, current: seq<T>)
    requires 1 <= i < |s| && front + [current] == GapClusters(s[..i], key, maxGap)
    ensures key(s[i]) - key(s[i - 1]) <= maxGap ==> GapClusters(s[..i + 1], key, maxGap) == front + [current + [s[i]]]
    ensures key(s[i]) - key(s[i - 1]) > maxGap ==> GapClusters(s[..i + 1], key, maxGap) == front + [current] + [[s[i]]]
  {
    var p := s[..i];
    assert s[..i + 1] == p + [s[i]];
    assert p[|p| - 1] == s[i - 1];
    GapClustersSnoc(p, s[i], key, maxGap);
    var init := front + [current];
    assert init[..|init| - 1] == front && init[|init| - 1] == current;
  }

  lemma FlattenAppend<T>(cs: seq<seq<T>>, c: seq<T>)
    ensures Flatten(cs + [c]) == Flatten(cs) + c
  {
    assert (cs + [c])[..|cs|] == cs;
  }

  /** Extending the last run adds the element at the end of the concatenation. */
  lemma FlattenMerge<T>(front: seq<seq<T>>, last: seq<T>, x: T)
    ensures Flatten(front + [last + [x]]) == Flatten(front + [last]) + [x]
  {
    FlattenAppend(front, last + [x]);
    FlattenAppend(front, last);
  }

  /** The runs, concatenated, give back the input. */
  lemma {:induction false} GapClustersFlatten<T>(s: seq<T>, key: T -> real, maxGap: real)
    requires s != []
    ensures Flatten(GapClusters(s, key, maxGap)) == s
    decreases |s|
  {
    if |s| == 1 {
      FlattenAppend([], [s[0]]);
    } else {
      var s0, x := s[..|s| - 1], s[|s| - 1];
      assert s == s0 + [x];
      GapClustersFlatten(s0, key, maxGap);
      GapClustersSnoc(s0, x, key, maxGap);
      var init := GapClusters(s0, key, maxGap);
      if key(x) - key(s0[|s0| - 1]) <= maxGap {
        assert init == init[..|init| - 1] + [init[|init| - 1]];
        FlattenMerge(init[..|init| - 1], init[|init| - 1], x);
      } else {
        FlattenAppend(init, [x]);
      }
    }
  }

  /** Every member of a run is a member of the input. */
  lemma GapClustersMember<T>(s: seq<T>, key: T -> real, maxGap: real, a: nat, x: T)
    requires s != [] && a < |GapClusters(s, key, maxGap)| && x in GapClusters(s, key, maxGap)[a]
    ensures x in s
  {
    GapClustersFlatten(s, key, maxGap);
    FlattenMember(GapClusters(s, key, maxGap), a, x);
  }

  /** Every step inside a run is at most `maxGap`. */
  ghost predicate StepsWithin<T>(r: seq<seq<T>>, key: T -> real, maxGap: real)
  {
    forall a, t :: 0 <= a < |r| && 0 <= t < |r[a]| - 1 ==> key(r[a][t + 1]) - key(r[a][t]) <= maxGap
  }

  /** The step from each run's last element to the next run's first is over `maxGap`. */
  ghost predicate GapsBetween<T>(r: seq<seq<T>>, key: T -> real, maxGap: real)
    requires forall a :: 0 <= a < |r| ==> r[a] != []
  {
    forall a :: 0 <= a < |r| - 1 ==> key(r[a + 1][0]) - key(r[a][|r[a]| - 1]) > maxGap
  }

  /** Extending the last run by an element within `maxGap` of its end keeps both gap properties. */
  lemma SplitMerge<T>(init: seq<seq<T>>, x: T, key: T -> real, maxGap: real)
    requires init != [] && forall a :: 0 <= a < |init| ==> init[a] != []
    requires StepsWithin(init, key, maxGap) && GapsBetween(init, key, maxGap)
    requires key(x) - key(init[|init| - 1][|init[|init| - 1]| - 1]) <= maxGap
    ensures var r := init[..|init| - 1] + [init[|init| - 1] + [x]];
      (forall a :: 0 <= a < |r| ==> r[a] != []) && StepsWithin(r, key, maxGap) && GapsBetween(r, key, maxGap)
  {
    var m := |init|;
    var last := init[m - 1];
    var r := init[..m - 1] + [last + [x]];
    assert forall a :: 0 <= a < m - 1 ==> r[a] == init[a];
    assert r[m - 1] == last + [x];
    forall a, t | 0 <= a < |r| && 0 <= t < |r[a]| - 1 ensures key(r[a][t + 1]) - key(r[a][t]) <= maxGap {
      if a == m - 1 {
        if t < |last| - 1 {
          assert r[a][t] == last[t] && r[a][t + 1] == last[t + 1];
        } else {
          assert r[a][t] == last[|last| - 1] && r[a][t + 1] == x;
        }
      }
    }
    forall a | 0 <= a < |r| - 1 ensures key(r[a + 1][0]) - key(r[a][|r[a]| - 1]) > maxGap {
      assert r[a + 1][0] == init[a + 1][0];
    }
  }

  /** Starting a new run with an element more than `maxGap` past the last keeps both gap properties. */
  lemma SplitNew<T>(init: seq<seq<T>>, x: T, key: T -> real, maxGap: real)
    requires init != [] && forall a :: 0 <= a < |init| ==> init[a] != []
    requires StepsWithin(init, key, maxGap) && GapsBetween(init, key, maxGap)
    requires key(x) - key(init[|init| - 1][|init[|init| - 1]| - 1]) > maxGap
    ensures var r := init + [[x]];
      (forall a :: 0 <= a < |r| ==> r[a] != []) && StepsWithin(r, key, maxGap) && GapsBetween(r, key, maxGap)
  {
    var m := |init|;
    var r := init + [[x]];
    assert forall a :: 0 <= a < m ==> r[a] == init[a];
    assert r[m] == [x];
    forall a | 0 <= a < |r| - 1 ensures key(r[a + 1][0]) - key(r[a][|r[a]| - 1]) > maxGap {
      if a < m - 1 {
        assert r[a + 1] == init[a + 1];
      }
    }
  }

  /** Inside a run every step is at most `maxGap`; between runs the step is larger. */
  lemma {:induction false} GapClustersSplit<T>(s: seq<T>, key: T -> real, maxGap: real)
    requires s != []
    ensures StepsWithin(GapClusters(s, key, maxGap), key, maxGap)
    ensures GapsBetween(GapClusters(s, key, maxGap), key, maxGap)
    decreases |s|
  {
    if |s| > 1 {
      var s0, x := s[..|s| - 1], s[|s| - 1];
      assert s == s0 + [x];
      GapClustersSplit(s0, key, maxGap);
      SplitSnoc(s0, x, key, maxGap);
    }
  }

  lemma SplitSnoc<T>(s0: seq<T>, x: T, key: T -> real, maxGap: real)
    requires s0 != []
    requires StepsWithin(GapClusters(s0, key, maxGap), key, maxGap) && GapsBetween(GapClusters(s0, key, maxGap), key, maxGap)
    ensures StepsWithin(GapClusters(s0 + [x], key, maxGap), key, maxGap) && GapsBetween(GapClusters(s0 + [x], key, maxGap), key, maxGap)
  {
    GapClustersSnoc(s0, x, key, maxGap);
    SplitStep(GapClusters(s0, key, maxGap), x, s0[|s0| - 1], key, maxGap, GapClusters(s0 + [x], key, maxGap));
  }

  /** Either way of adding an element past the end `last` of the runs keeps both gap properties. */
  lemma SplitStep<T>(init: seq<seq<T>>, x: T, last: T, key: T -> real, maxGap: real, r: seq<seq<T>>)
    requires init != [] && forall a :: 0 <= a < |init| ==> init[a] != []
    requires StepsWithin(init, key, maxGap) && GapsBetween(init, key, maxGap)
    requires last == init[|init| - 1][|init[|init| - 1]| - 1]
    requires r == if key(x) - key(last) <= maxGap then init[..|init| - 1] + [init[|init| - 1] + [x]] else init + [[x]]
    ensures StepsWithin(r, key, maxGap) && GapsBetween(r, key, maxGap)
  {
    if key(x) - key(last) <= maxGap {
      SplitMerge(init, x, key, maxGap);
    } else {
      SplitNew(init, x, key, maxGap);
    }
  }

  /** Every element of an earlier run has a smaller key than every element of a later run. */
  ghost predicate RunsOrdered<T>(r: seq<seq<T>>, key: T -> real)
  {
    forall a, b, x, y :: 0 <= a < b < |r| && x in r[a] && y in r[b] ==> key(x) < key(y)
  }

  /** Appending a larger element to the last run keeps the runs ordered. */
  lemma OrderedMerge<T>(init: seq<seq<T>>, z: T, key: T -> real)
    requires init != [] && RunsOrdered(init, key)
    requires forall a, x :: 0 <= a < |init| && x in init[a] ==> key(x) < key(z)
    ensures RunsOrdered(init[..|init| - 1] + [init[|init| - 1] + [z]], key)
  {
    var m := |init|;
    var r := init[..m - 1] + [init[m - 1] + [z]];
    forall a, b, x, y | 0 <= a < b < |r| && x in r[a] && y in r[b] ensures key(x) < key(y) {
      assert r[a] == init[a];
      if b < m - 1 {
        assert r[b] == init[b];
      } else if y != z {
        assert y in init[m - 1];
      }
    }
  }

  /** Starting a new run with a larger element keeps the runs ordered. */
  lemma OrderedNew<T>(init: seq<seq<T>>, z: T, key: T -> real)
    requires RunsOrdered(init, key)
    requires forall a, x :: 0 <= a < |init| && x in init[a] ==> key(x) < key(z)
    ensures RunsOrdered(init + [[z]], key)
  {
    var r := init + [[z]];
    forall a, b, x, y | 0 <= a < b < |r| && x in r[a] && y in r[b] ensures key(x) < key(y) {
      assert r[a] == init[a];
      if b < |init| {
        assert r[b] == init[b];
      } else {
        assert y == z;
      }
    }
  }

  /** On strictly increasing keys the runs are ordered. */
  lemma {:induction false} GapClustersOrdered<T>(s: seq<T>, key: T -> real, maxGap: real)
    requires s != []
    requires forall i, j :: 0 <= i < j < |s| ==> key(s[i]) < key(s[j])
    ensures RunsOrdered(GapClusters(s, key, maxGap), key)
    decreases |s|
  {
    if |s| > 1 {
      var s0, z := s[..|s| - 1], s[|s| - 1];
      assert s == s0 + [z];
      GapClustersOrdered(s0, key, maxGap);
      var init := GapClusters(s0, key, maxGap);
      forall a, x | 0 <= a < |init| && x in init[a] ensures key(x) < key(z) {
        EarlierKeySmaller(s, key, maxGap, a, x);
      }
      OrderedSnoc(s0, z, key, maxGap);
    }
  }

  /** Appending an element larger than every earlier one keeps the runs ordered. */
  lemma OrderedSnoc<T>(s0: seq<T>, z: T, key: T -> real, maxGap: real)
    requires s0 != [] && RunsOrdered(GapClusters(s0, key, maxGap), key)
    requires forall a, x :: 0 <= a < |GapClusters(s0, key, maxGap)| && x in GapClusters(s0, key, maxGap)[a] ==> key(x) < key(z)
    ensures RunsOrdered(GapClusters(s0 + [z], key, maxGap), key)
  {
    GapClustersSnoc(s0, z, key, maxGap);
    OrderedStep(GapClusters(s0, key, maxGap), z, key(s0[|s0| - 1]), key, maxGap, GapClusters(s0 + [z], key, maxGap));
  }

  lemma OrderedStep<T>(init: seq<seq<T>>, z: T, lastKey: real, key: T -> real, maxGap: real, r: seq<seq<T>>)
    requires init != [] && RunsOrdered(init, key)
    requires forall a, x :: 0 <= a < |init| && x in init[a] ==> key(x) < key(z)
    requires r == if key(z) - lastKey <= maxGap then init[..|init| - 1] + [init[|init| - 1] + [z]] else init + [[z]]
    ensures RunsOrdered(r, key)
  {
    if key(z) - lastKey <= maxGap {
      OrderedMerge(init, z, key);
    } else {
      OrderedNew(init, z, key);
    }
  }

  /** On strictly increasing keys, every member of a run over all but the last element has a smaller key than the last. */
  lemma EarlierKeySmaller<T>(s: seq<T>, key: T -> real, maxGap: real, a: nat, x: T)
    requires |s| > 1
    requires forall i, j :: 0 <= i < j < |s| ==> key(s[i]) < key(s[j])
    requires a < |GapClusters(s[..|s| - 1], key, maxGap)| && x in GapClusters(s[..|s| - 1], key, maxGap)[a]
    ensures key(x) < key(s[|s| - 1])
  {
    var s0 := s[..|s| - 1];
    GapClustersMember(s0, key, maxGap, a, x);
    var i :| 0 <= i < |s0| && s0[i] == x;
    assert s[i] == x;
  }

  function PositionKey(alongX: bool): Line2D -> real
  {
    (l: Line2D) => GridDetection.Position(l, alongX)
  }

  /** The lines in stable order of their midpoint coordinate along the axis. */
  function SortedByPosition(lines: seq<Line2D>, alongX: bool): seq<Line2D>
  {
    SortBy(lines, PositionKey(alongX))
  }

  /** `cluster_lines_by_position`: runs of the position-sorted lines separated by gaps over `maxGap`. */
  function ClusterLinesSpec(lines: seq<Line2D>, axis: string, maxGap: real): seq<seq<Line2D>>
  {
    if lines == [] then []
    else GapClusters(SortedByPosition(lines, axis == "x"), PositionKey(axis == "x"), maxGap)
  }

  function Seconds(ps: seq<(real, Line2D)>): (r: seq<Line2D>)
    ensures |r| == |ps|
  {
    seq(|ps|, k requires 0 <= k < |ps| => ps[k].1)
  }

  /** Each pair carries its line's key. */
  ghost predicate KeyedBy(ps: seq<(real, Line2D)>, key: Line2D -> real)
  {
    forall k :: 0 <= k < |ps| ==> ps[k].0 == key(ps[k].1)
  }

  lemma KeyedPermutation(a: seq<(real, Line2D)>, b: seq<(real, Line2D)>, key: Line2D -> real)
    requires multiset(a) == multiset(b) && KeyedBy(b, key)
    ensures KeyedBy(a, key)
  {
    PermutationMembers(a, b);
    forall k | 0 <= k < |a| ensures a[k].0 == key(a[k].1) {
      var j :| 0 <= j < |b| && b[j] == a[k];
    }
  }

  lemma {:induction false} InsertBySeconds(ps: seq<(real, Line2D)>, p: (real, Line2D), key: Line2D -> real)
    requires KeyedBy(ps, key) && p.0 == key(p.1)
    ensures Seconds(InsertBy(ps, p, GridDetection.PairKey)) == InsertBy(Seconds(ps), p.1, key)
    decreases |ps|
  {
    if ps == [] || GridDetection.PairKey(ps[|ps| - 1]) <= GridDetection.PairKey(p) {
      assert Seconds(ps + [p]) == Seconds(ps) + [p.1];
      if ps != [] {
        assert key(Seconds(ps)[|ps| - 1]) == ps[|ps| - 1].0;
      }
    } else {
      var init := ps[..|ps| - 1];
      var last := ps[|ps| - 1];
      InsertBySeconds(init, p, key);
      var rest := InsertBy(init, p, GridDetection.PairKey);
      assert Seconds(init) == Seconds(ps)[..|ps| - 1];
      assert Seconds(rest + [last]) == Seconds(rest) + [last.1];
      assert key(Seconds(ps)[|ps| - 1]) == last.0;
    }
  }

  lemma {:induction false} SortBySeconds(pairs: seq<(real, Line2D)>, key: Line2D -> real)
    requires KeyedBy(pairs, key)
    ensures Seconds(SortBy(pairs, GridDetection.PairKey)) == SortBy(Seconds(pairs), key)
  {
    if pairs != [] {
      var n := |pairs|;
      var init := pairs[..n - 1];
      var p := pairs[n - 1];
      assert KeyedBy(init, key);
      SortBySeconds(init, key);
      var sorted := SortBy(init, GridDetection.PairKey);
      KeyedPermutation(sorted, init, key);
      InsertBySeconds(sorted, p, key);
      var ls := Seconds(pairs);
      assert Seconds(init) == ls[..n - 1];
      assert ls[n - 1] == p.1;
      assert SortBy(pairs, GridDetection.PairKey) == InsertBy(sorted, p, GridDetection.PairKey);
      assert SortBy(ls, key) == InsertBy(SortBy(ls[..n - 1], key), ls[n - 1], key);
    }
  }

  /** Sorting (position, line) pairs by position orders the lines exactly as sorting the lines by position. */
  lemma SortedPairsLines(lines: seq<Line2D>, alongX: bool)
    ensures var ps := SortBy(GridDetection.PositionPairs(lines, alongX), GridDetection.PairKey);
      Seconds(ps) == SortedByPosition(lines, alongX) && KeyedBy(ps, PositionKey(alongX))
  {
    var pairs := GridDetection.PositionPairs(lines, alongX);
    var key := PositionKey(alongX);
    assert Seconds(pairs) == lines;
    assert KeyedBy(pairs, key);
    SortBySeconds(pairs, key);
    KeyedPermutation(SortBy(pairs, GridDetection.PairKey), pairs, key);
  }

  /** The clusters are non-empty and, concatenated, give the lines sorted by midpoint. */
  lemma ClusterLinesSorted(lines: seq<Line2D>, axis: string, maxGap: real)
    ensures var r := ClusterLinesSpec(lines, axis, maxGap);
      && (r == [] <==> lines == [])
      && (forall a :: 0 <= a < |r| ==> r[a] != [])
      && Flatten(r) == SortedByPosition(lines, axis == "x")
      && multiset(Flatten(r)) == multiset(lines)
      && SortedBy(Flatten(r), PositionKey(axis == "x"))
  {
    var key := PositionKey(axis == "x");
    SortBySorted(lines, key);
    if lines != [] {
      GapClustersFlatten(SortedByPosition(lines, axis == "x"), key, maxGap);
    }
  }

  /** Two neighbours in sorted order share a cluster iff their positions differ by at most `maxGap`. */
  lemma ClusterLinesGaps(lines: seq<Line2D>, axis: string, maxGap: real)
    requires lines != []
    ensures StepsWithin(ClusterLinesSpec(lines, axis, maxGap), PositionKey(axis == "x"), maxGap)
    ensures GapsBetween(ClusterLinesSpec(lines, axis, maxGap), PositionKey(axis == "x"), maxGap)
  {
    GapClustersSplit(SortedByPosition(lines, axis == "x"), PositionKey(axis == "x"), maxGap);
  }

  /**
   * The clustering loop over sorted (position, line) pairs, with `prev_pos` tracking the last
   * position; `ls` names the lines of the pairs and `key` their positions.
   */
  method RunsByPosition(positions: seq<(real, Line2D)>, ghost ls: seq<Line2D>, ghost key: Line2D -> real, maxGap: real)
    returns (clusters: seq<seq<Line2D>>)
    requires positions != [] && |ls| == |positions|
    requires forall k :: 0 <= k < |positions| ==> positions[k] == (key(ls[k]), ls[k])
    requires forall k :: 0 < k < |positions| ==> positions[k - 1].0 <= positions[k].0
    ensures clusters == GapClusters(ls, key, maxGap)
  {
    clusters := [];
    var current := [positions[0].1];
    var prevPos := positions[0].0;
    var i := 1;
    assert ls[..1] == [ls[0]];
    while i < |positions|
      invariant 1 <= i <= |positions|
      invariant clusters + [current] == GapClusters(ls[..i], key, maxGap)
      invariant prevPos == positions[i - 1].0
    {
      ghost var clusters0, current0 := clusters, current;
      var pos := positions[i].0;
      var line := positions[i].1;
      if Abs(pos - prevPos) <= maxGap {
        current := current + [line];
      } else {
        clusters := clusters + [current];
        current := [line];
      }
      PositionRunsStep(ls, key, maxGap, i, pos, prevPos, line, clusters0, current0, clusters, current);
      prevPos := pos;
      i := i + 1;
    }
    assert ls[..i] == ls;
    clusters := clusters + [current];
  }

  /** One step of the clustering loop: the positions are sorted, so `abs` of the step is the step. */
  lemma PositionRunsStep(ls: seq<Line2D>, key: Line2D -> real, maxGap: real, i: nat, pos: real, prevPos: real, line: Line2D,
                         clusters: seq<seq<Line2D>>, current: seq<Line2D>, clusters': seq<seq<Line2D>>, current': seq<Line2D>)
    requires 1 <= i < |ls| && line == ls[i] && pos == key(ls[i]) && prevPos == key(ls[i - 1]) && prevPos <= pos
    requires clusters + [current] == GapClusters(ls[..i], key, maxGap)
    requires Abs(pos - prevPos) <= maxGap ==> clusters' == clusters && current' == current + [line]
    requires Abs(pos - prevPos) > maxGap ==> clusters' == clusters + [current] && current' == [line]
    ensures clusters' + [current'] == GapClusters(ls[..i + 1], key, maxGap)
  {
    GapClustersStep(ls, key, maxGap, i, clusters, current);
    if Abs(pos - prevPos) > maxGap {
      assert clusters' + [current'] == clusters + [current] + [[ls[i]]];
    }
  }

  /** `cluster_lines_by_position`: sort (position, line) pairs, then one clustering pass. */
  method ClusterLinesByPosition(lines: seq<Line2D>, axis: string, maxGap: real) returns (clusters: seq<seq<Line2D>>)
    ensures clusters == ClusterLinesSpec(lines, axis, maxGap)
  {
    if |lines| == 0 {
      return [];
    }
    var alongX := axis == "x";
    var positions := GridDetection.CollectPositions(lines, alongX);
    positions := SortBy(positions, GridDetection.PairKey);
    SortedPairsLines(lines, alongX);
    SortBySorted(GridDetection.PositionPairs(lines, alongX), GridDetection.PairKey);
    assert forall i, j :: 0 <= i < j < |positions| ==> GridDetection.PairKey(positions[i]) <= GridDetection.PairKey(positions[j]);
    forall k | 0 <= k < |positions|
      ensures positions[k] == (PositionKey(alongX)(Seconds(positions)[k]), Seconds(positions)[k])
    {
    }
    clusters := RunsByPosition(positions, Seconds(positions), PositionKey(alongX), maxGap);
  }

  /** The mean of each cluster. */
  function ClusterMeans(cs: seq<seq<real>>): (r: seq<real>)
    requires forall a :: 0 <= a < |cs| ==> cs[a] != []
    ensures |r| == |cs|
  {
    seq(|cs|, a requires 0 <= a < |cs| => Mean(cs[a]))
  }

  /** `cluster_coordinates`: the means of the runs of the distinct sorted coordinates. */
  function ClusterCoordinatesSpec(coords: seq<real>, maxGap: real): seq<real>
  {
    if coords == [] then []
    else
      assert coords[0] in SortedDistinct(coords);
      ClusterMeans(GapClusters(SortedDistinct(coords), Identity, maxGap))
  }

  /** The means of ordered runs are strictly increasing. */
  lemma MeansIncreasing(cs: seq<seq<real>>)
    requires forall a :: 0 <= a < |cs| ==> cs[a] != []
    requires RunsOrdered(cs, Identity)
    ensures forall i, j :: 0 <= i < j < |cs| ==> ClusterMeans(cs)[i] < ClusterMeans(cs)[j]
  {
    var r := ClusterMeans(cs);
    forall i, j | 0 <= i < j < |cs| ensures r[i] < r[j] {
      MeanBetween(cs[i]);
      MeanBetween(cs[j]);
      var hi := SeqMax(cs[i]);
      var lo := SeqMin(cs[j]);
      assert hi in cs[i] && lo in cs[j];
      assert Identity(hi) < Identity(lo);
    }
  }

  /** The centres are strictly increasing and no more numerous than the distinct coordinates. */
  lemma CoordinateCentres(coords: seq<real>, maxGap: real)
    ensures var r := ClusterCoordinatesSpec(coords, maxGap);
      && (r == [] <==> coords == [])
      && |r| <= |SortedDistinct(coords)|
      && (forall i, j :: 0 <= i < j < |r| ==> r[i] < r[j])
  {
    if coords != [] {
      var u := SortedDistinct(coords);
      assert coords[0] in u;
      assert forall i, j :: 0 <= i < j < |u| ==> Identity(u[i]) < Identity(u[j]);
      GapClustersOrdered(u, Identity, maxGap);
      MeansIncreasing(GapClusters(u, Identity, maxGap));
    }
  }

  /** Each centre is the mean of a run of input coordinates, so it lies between that run's extremes. */
  lemma CoordinateCentreBounds(coords: seq<real>, maxGap: real, k: nat)
    requires k < |ClusterCoordinatesSpec(coords, maxGap)|
    ensures coords != []
    ensures var cs := GapClusters(SortedDistinct(coords), Identity, maxGap);
      && k < |cs| && (forall x :: x in cs[k] ==> x in coords)
      && SeqMin(cs[k]) <= ClusterCoordinatesSpec(coords, maxGap)[k] <= SeqMax(cs[k])
  {
    var u := SortedDistinct(coords);
    assert coords[0] in u;
    var cs := GapClusters(u, Identity, maxGap);
    MeanBetween(cs[k]);
    forall x | x in cs[k] ensures x in coords {
      GapClustersMember(u, Identity, maxGap, k, x);
    }
  }

  /** The clustering loop over the distinct sorted values, comparing with the current cluster's last value. */
  method MeansOfRuns(unique: seq<real>, maxGap: real) returns (centers: seq<real>)
    requires unique != []
    ensures centers == ClusterMeans(GapClusters(unique, Identity, maxGap))
  {
    ghost var done: seq<seq<real>> := [];
    centers := [];
    var current := [unique[0]];
    var i := 1;
    RunsStart(unique, maxGap);
    while i < |unique|
      invariant RunsSoFar(unique, maxGap, i, done, current, centers)
    {
      ghost var done0, current0, centers0 := done, current, centers;
      var coord := unique[i];
      if coord - current[|current| - 1] <= maxGap {
        current := current + [coord];
      } else {
        centers := centers + [Sum(current) / |current| as real];
        done := done + [current];
        current := [coord];
      }
      RunsStep(unique, maxGap, i, done0, current0, centers0, done, current, centers);
      i := i + 1;
    }
    RunsEnd(unique, maxGap, done, current, centers);
    centers := centers + [Sum(current) / |current| as real];
  }

  lemma RunsStart(unique: seq<real>, maxGap: real)
    requires unique != []
    ensures RunsSoFar(unique, maxGap, 1, [], [unique[0]], [])
  {
    assert unique[..1] == [unique[0]];
  }

  /** Closing the last run gives the means of all the runs. */
  lemma RunsEnd(unique: seq<real>, maxGap: real, done: seq<seq<real>>, current: seq<real>, centers: seq<real>)
    requires RunsSoFar(unique, maxGap, |unique|, done, current, centers)
    ensures centers + [Sum(current) / |current| as real] == ClusterMeans(GapClusters(unique, Identity, maxGap))
  {
    assert unique[..|unique|] == unique;
    MeansAppend(done, current);
  }

  /**
   * The state of the clustering loop before value `i`: the closed runs and the current one are
   * the runs of the values so far, the current run ends at the last of them, and the centres are
   * the means of the closed runs.
   */
  ghost predicate RunsSoFar(unique: seq<real>, maxGap: real, i: nat, done: seq<seq<real>>, current: seq<real>, centers: seq<real>)
  {
    && 1 <= i <= |unique|
    && done + [current] == GapClusters(unique[..i], Identity, maxGap)
    && current != [] && current[|current| - 1] == unique[i - 1]
    && (forall a :: 0 <= a < |done| ==> done[a] != [])
    && centers == ClusterMeans(done)
  }

  /** One step of the clustering loop keeps its invariant. */
  lemma RunsStep(unique: seq<real>, maxGap: real, i: nat, done: seq<seq<real>>, current: seq<real>, centers: seq<real>,
                 done': seq<seq<real>>, current': seq<real>, centers': seq<real>)
    requires i < |unique| && RunsSoFar(unique, maxGap, i, done, current, centers)
    requires unique[i] - current[|current| - 1] <= maxGap ==>
      done' == done && current' == current + [unique[i]] && centers' == centers
    requires unique[i] - current[|current| - 1] > maxGap ==>
      done' == done + [current] && current' == [unique[i]] && centers' == centers + [Sum(current) / |current| as real]
    ensures RunsSoFar(unique, maxGap, i + 1, done', current', centers')
  {
    GapClustersStep(unique, Identity, maxGap, i, done, current);
    assert Identity(unique[i]) - Identity(unique[i - 1]) == unique[i] - current[|current| - 1];
    if unique[i] - current[|current| - 1] > maxGap {
      MeansAppend(done, current);
      assert done' + [current'] == done + [current] + [[unique[i]]];
    }
  }

  lemma MeansAppend(cs: seq<seq<real>>, c: seq<real>)
    requires (forall a :: 0 <= a < |cs| ==> cs[a] != []) && c != []
    ensures ClusterMeans(cs + [c]) == ClusterMeans(cs) + [Sum(c) / |c| as real]
  {
  }

  /** `cluster_coordinates`: `sorted(set(coords))`, then one clustering pass. */
  method ClusterCoordinates(coords: seq<real>, maxGap: real) returns (centers: seq<real>)
    ensures centers == ClusterCoordinatesSpec(coords, maxGap)
  {
    if |coords| == 0 {
      return [];
    }
    var unique := SortedDistinct(coords);
    assert coords[0] in unique;
    centers := MeansOfRuns(unique, maxGap);
  }
}
