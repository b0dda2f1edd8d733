/**
 * Wall classification from closed polylines: the size filter, the confidence score,
 * and one wall per edge of every accepted polyline.
 */
module WallClassification {
  import opened Numeric
  import opened Wrappers
  import opened Models
  import opened PolylineExtraction

  /** The classifier's thresholds and the dimensions it gives generated walls. */
  datatype ClassifierConfig = ClassifierConfig(
    minPerimeter: real,
    maxPerimeter: real,
    minArea: real,
    maxArea: real,
    defaultWallThickness: real,
    defaultWallHeight: real)

  /** The constructor defaults of `WallClassifier`. */
  const DefaultConfig := ClassifierConfig(1000.0, 500000.0, 100.0, 1000000000.0, 150.0, 3000.0)

  /** Enclosed area above which a polyline is taken for the building perimeter (100 m^2 in mm^2). */
  const PerimeterAreaThreshold: real := 100000000.0

  /** How close (mm) a polyline's box edge must be to the grid's box edge for the grid bonus. */
  const GridTolerance: real := 500.0

  // ---------------------------------------------------------------- layer names

  /** `str.lower` on ASCII letters. */
  function LowerAscii(s: string): (r: string)
    ensures |r| == |s|
    ensures forall k :: 0 <= k < |s| ==> r[k] == (if 'A' <= s[k] <= 'Z' then (s[k] as int + 32) as char else s[k])
  {
    seq(|s|, k requires 0 <= k < |s| => if 'A' <= s[k] <= 'Z' then (s[k] as int + 32) as char else s[k])
  }

  /** `sub in s` for strings: `sub` occurs at some position of `s`. */
  predicate ContainsSubstring(s: string, sub: string)
  {
    exists i :: 0 <= i <= |s| && OccursAt(s, sub, i)
  }

  predicate OccursAt(s: string, sub: string, i: int)
  {
    0 <= i && i + |sub| <= |s| && s[i..i + |sub|] == sub
  }

  /**
   * The layer bonus: nothing without a non-empty list of wall layers, 0.2 for a layer on the
   * list, otherwise 0.1 for a layer whose lower-cased name contains "wall".
   */
  function LayerBonus(layer: string, wallLayers: Option<seq<string>>): real
  {
    if wallLayers.Some? && wallLayers.value != [] then
      if layer in wallLayers.value then 0.2
      else if ContainsSubstring(LowerAscii(layer), "wall") then 0.1
      else 0.0
    else 0.0
  }

  lemma LayerBonusCases(layer: string, wallLayers: Option<seq<string>>)
    ensures wallLayers.None? || wallLayers == Some([]) ==> LayerBonus(layer, wallLayers) == 0.0
    ensures wallLayers.Some? && layer in wallLayers.value ==> LayerBonus(layer, wallLayers) == 0.2
    ensures LayerBonus(layer, wallLayers) == 0.1 <==>
      wallLayers.Some? && wallLayers.value != [] && layer !in wallLayers.value && ContainsSubstring(LowerAscii(layer), "wall")
    ensures LayerBonus(layer, wallLayers) in {0.0, 0.1, 0.2}
  {
  }

  // ---------------------------------------------------------------- confidence

  /** Some edge of the polyline's box lies within 500 of the same edge of the grid's box. */
  predicate NearGridBoundary(box: (real, real, real, real), gridBox: BoundingBox)
  {
    || Abs(box.0 - gridBox.minX) < GridTolerance
    || Abs(box.1 - gridBox.minY) < GridTolerance
    || Abs(box.2 - gridBox.maxX) < GridTolerance
    || Abs(box.3 - gridBox.maxY) < GridTolerance
  }

  /** The uncapped score: base 0.4 plus the layer, shape, size and grid bonuses. */
  function RawConfidence(m: Math, poly: PolylineData, grid: Option<BuildingGrid>, wallLayers: Option<seq<string>>): real
    requires ValidMath(m)
  {
    var perimeter := PerimeterSpec(m, poly);
    0.4
    + LayerBonus(poly.layer, wallLayers)
    + (if IsRectangularSpec(m, poly) then 0.15 else 0.0)
    + (if 10000.0 <= perimeter <= 200000.0 then 0.1 else 0.0)
    + (if grid.Some? && NearGridBoundary(BoundingBoxOf(poly), grid.value.boundingBox) then 0.15 else 0.0)
  }

  /** `_calculate_confidence`: the score capped at 1.0. */
  function ConfidenceSpec(m: Math, poly: PolylineData, grid: Option<BuildingGrid>, wallLayers: Option<seq<string>>): real
    requires ValidMath(m)
  {
    Min(1.0, RawConfidence(m, poly, grid, wallLayers))
  }

  /** Every score lies in [0.4, 1.0], and it is 1.0 only when the bonuses reach 0.6. */
  lemma ConfidenceRange(m: Math, poly: PolylineData, grid: Option<BuildingGrid>, wallLayers: Option<seq<string>>)
    requires ValidMath(m)
    ensures 0.4 <= ConfidenceSpec(m, poly, grid, wallLayers) <= 1.0
    ensures ValidConfidence(ConfidenceSpec(m, poly, grid, wallLayers))
    ensures ConfidenceSpec(m, poly, grid, wallLayers) == 1.0 <==> RawConfidence(m, poly, grid, wallLayers) >= 1.0
  {
    LayerBonusCases(poly.layer, wallLayers);
  }

  /** A rectangle on a listed layer, of middling size and on the grid boundary, scores the full 1.0. */
  lemma FullConfidence(m: Math, poly: PolylineData, grid: BuildingGrid, wallLayers: seq<string>)
    requires ValidMath(m)
    requires poly.layer in wallLayers && IsRectangularSpec(m, poly)
    requires 10000.0 <= PerimeterSpec(m, poly) <= 200000.0
    requires NearGridBoundary(BoundingBoxOf(poly), grid.boundingBox)
    ensures ConfidenceSpec(m, poly, Some(grid), Some(wallLayers)) == 1.0
  {
    LayerBonusCases(poly.layer, Some(wallLayers));
  }

  /** `WallClassifier._calculate_confidence`. */
  method CalculateConfidence(m: Math, poly: PolylineData, grid: Option<BuildingGrid>, wallLayers: Option<seq<string>>)
    returns (confidence: real)
    requires ValidMath(m)
    ensures confidence == ConfidenceSpec(m, poly, grid, wallLayers)
    ensures 0.4 <= confidence <= 1.0
  {
    confidence := 0.4;
    if wallLayers.Some? && wallLayers.value != [] && poly.layer in wallLayers.value {
      confidence := confidence + 0.2;
    } else if wallLayers.Some? && wallLayers.value != [] {
      if ContainsSubstring(LowerAscii(poly.layer), "wall") {
        confidence := confidence + 0.1;
      }
    }
    var rectangular := IsRectangular(m, poly, DefaultRectangularTolerance);
    if rectangular {
      confidence := confidence + 0.15;
    }
    var perimeter := PolylinePerimeter(m, poly);
    if 10000.0 <= perimeter <= 200000.0 {
      confidence := confidence + 0.1;
    }
    if grid.Some? {
      var box := BoundingBoxOf(poly);
      var gridBox := grid.value.boundingBox;
      if NearGridBoundary(box, gridBox) {
        confidence := confidence + 0.15;
      }
    }
    ConfidenceRange(m, poly, grid, wallLayers);
    confidence := Min(1.0, confidence);
  }

  // ---------------------------------------------------------------- walls from edges

  /** `_is_perimeter_wall`: the polyline encloses more than 100 m^2; the edge index plays no part. */
  function IsPerimeterWall(poly: PolylineData, segmentIndex: nat): (r: bool)
    ensures r ==> poly.isClosed && |poly.points| >= 3
  {
    AreaSpec(poly) > PerimeterAreaThreshold
  }

  /** The wall along edge `i`, from vertex `i` to the next one, wrapping round to the first. */
  function EdgeWall(cfg: ClassifierConfig, poly: PolylineData, i: nat): Wall
    requires i < |poly.points|
  {
    var pts := poly.points;
    var exterior := IsPerimeterWall(poly, i);
    Wall(Line2D(pts[i], pts[(i + 1) % |pts|], poly.layer), cfg.defaultWallThickness, cfg.defaultWallHeight,
         exterior, exterior, 0.5, Some(poly.layer), map[])
  }

  /** `_polyline_to_walls`: one wall per edge, in vertex order. */
  function PolylineWallsSpec(cfg: ClassifierConfig, poly: PolylineData): (r: seq<Wall>)
    ensures |r| == |poly.points|
  {
    seq(|poly.points|, i requires 0 <= i < |poly.points| => EdgeWall(cfg, poly, i))
  }

  /** Wall i starts at vertex i and carries the default dimensions and the perimeter flag twice. */
  lemma PolylineWallsFields(cfg: ClassifierConfig, poly: PolylineData, i: nat)
    requires i < |poly.points|
    ensures PolylineWallsSpec(cfg, poly)[i].centerline.start == poly.points[i]
    ensures PolylineWallsSpec(cfg, poly)[i].centerline.layer == poly.layer
    ensures PolylineWallsSpec(cfg, poly)[i].thickness == cfg.defaultWallThickness
    ensures PolylineWallsSpec(cfg, poly)[i].height == cfg.defaultWallHeight
    ensures PolylineWallsSpec(cfg, poly)[i].isExterior == PolylineWallsSpec(cfg, poly)[i].isStructural
      == (AreaSpec(poly) > PerimeterAreaThreshold)
  {
  }

  /**
   * The walls of a polyline form a closed chain over its vertices: each wall ends where the
   * next begins, and the last ends where the first begins.
   */
  lemma PolylineWallsChain(cfg: ClassifierConfig, poly: PolylineData, i: nat)
    requires i < |poly.points|
    ensures PolylineWallsSpec(cfg, poly)[i].centerline.end
      == PolylineWallsSpec(cfg, poly)[(i + 1) % |poly.points|].centerline.start
    ensures i + 1 < |poly.points| ==> PolylineWallsSpec(cfg, poly)[i].centerline.end == poly.points[i + 1]
    ensures i + 1 == |poly.points| ==> PolylineWallsSpec(cfg, poly)[i].centerline.end == poly.points[0]
  {
    var n := |poly.points|;
    if i + 1 < n {
      assert (i + 1) % n == i + 1;
    } else {
      assert (i + 1) % n == 0;
    }
  }

  /** `WallClassifier._polyline_to_walls`. */
  method PolylineToWalls(cfg: ClassifierConfig, poly: PolylineData) returns (walls: seq<Wall>)
    ensures walls == PolylineWallsSpec(cfg, poly)
  {
    walls := [];
    var points := poly.points;
    var n := |points|;
    for i := 0 to n
      invariant walls == PolylineWallsSpec(cfg, poly)[..i]
    {
      var p1 := points[i];
      var p2 := points[(i + 1) % n];
      var centerline := Line2D(p1, p2, poly.layer);
      var isExterior := IsPerimeterWall(poly, i);
      var wall := Wall(centerline, cfg.defaultWallThickness, cfg.defaultWallHeight,
                       isExterior, isExterior, 0.5, Some(poly.layer), map[]);
      walls := walls + [wall];
    }
  }

  // ---------------------------------------------------------------- classification

  /** A polyline `classify` keeps: closed, with perimeter and area inside the inclusive ranges. */
  predicate Kept(m: Math, cfg: ClassifierConfig, poly: PolylineData)
    requires ValidMath(m)
  {
    && poly.isClosed
    && cfg.minPerimeter <= PerimeterSpec(m, poly) <= cfg.maxPerimeter
    && cfg.minArea <= AreaSpec(poly) <= cfg.maxArea
  }

  /** The walls with their confidence and source layer overwritten. */
  function Stamped(walls: seq<Wall>, confidence: real, layer: string): (r: seq<Wall>)
    ensures |r| == |walls|
  {
    seq(|walls|, k requires 0 <= k < |walls| => walls[k].(confidence := confidence, sourceLayer := Some(layer)))
  }

  /** The walls `classify` emits for one polyline. */
  function PolylineResult(m: Math, cfg: ClassifierConfig, poly: PolylineData,
                          grid: Option<BuildingGrid>, wallLayers: Option<seq<string>>): seq<Wall>
    requires ValidMath(m)
  {
    if Kept(m, cfg, poly) then
      Stamped(PolylineWallsSpec(cfg, poly), ConfidenceSpec(m, poly, grid, wallLayers), poly.layer)
    else []
  }

  /** The concatenation of `f` over `s`, element by element from the front. */
  function ConcatMap<T, U>(s: seq<T>, f: T -> seq<U>): seq<U>
  {
    if s == [] then [] else ConcatMap(s[..|s| - 1], f) + f(s[|s| - 1])
  }

  lemma {:induction false} ConcatMapAppend<T, U>(a: seq<T>, b: seq<T>, f: T -> seq<U>)
    ensures ConcatMap(a + b, f) == ConcatMap(a, f) + ConcatMap(b, f)
    decreases |b|
  {
    if b == [] {
      assert a + b == a;
    } else {
      var ab := a + b;
      assert ab[..|ab| - 1] == a + b[..|b| - 1];
      assert ab[|ab| - 1] == b[|b| - 1];
      ConcatMapAppend(a, b[..|b| - 1], f);
    }
  }

  /** `PolylineResult` with the classifier's context fixed. */
  function ResultOf(m: Math, cfg: ClassifierConfig, grid: Option<BuildingGrid>, wallLayers: Option<seq<string>>)
    : PolylineData -> seq<Wall>
    requires ValidMath(m)
  {
    poly => PolylineResult(m, cfg, poly, grid, wallLayers)
  }

  /** `classify`: the walls of every kept polyline, polyline by polyline. */
  function ClassifySpec(m: Math, cfg: ClassifierConfig, polys: seq<PolylineData>,
                        grid: Option<BuildingGrid>, wallLayers: Option<seq<string>>): seq<Wall>
    requires ValidMath(m)
  {
    ConcatMap(polys, ResultOf(m, cfg, grid, wallLayers))
  }

  lemma ClassifySnoc(m: Math, cfg: ClassifierConfig, polys: seq<PolylineData>,
                     grid: Option<BuildingGrid>, wallLayers: Option<seq<string>>)
    requires ValidMath(m) && polys != []
    ensures ClassifySpec(m, cfg, polys, grid, wallLayers)
         == ClassifySpec(m, cfg, polys[..|polys| - 1], grid, wallLayers)
            + PolylineResult(m, cfg, polys[|polys| - 1], grid, wallLayers)
  {
  }

  /** Polylines are classified independently: the result of a concatenation is the concatenation. */
  lemma ClassifyAppend(m: Math, cfg: ClassifierConfig, a: seq<PolylineData>, b: seq<PolylineData>,
                       grid: Option<BuildingGrid>, wallLayers: Option<seq<string>>)
    requires ValidMath(m)
    ensures ClassifySpec(m, cfg, a + b, grid, wallLayers)
         == ClassifySpec(m, cfg, a, grid, wallLayers) + ClassifySpec(m, cfg, b, grid, wallLayers)
  {
    ConcatMapAppend(a, b, ResultOf(m, cfg, grid, wallLayers));
  }

  /** A wall of `polys[j]` as `classify` emits it: its edge wall, stamped with the polyline's score. */
  ghost predicate FromKeptPolyline(m: Math, cfg: ClassifierConfig, polys: seq<PolylineData>,
                                   grid: Option<BuildingGrid>, wallLayers: Option<seq<string>>, w: Wall)
    requires ValidMath(m)
  {
    exists j, i :: 0 <= j < |polys| && 0 <= i < |polys[j].points| && Kept(m, cfg, polys[j])
      && w == EdgeWall(cfg, polys[j], i).(confidence := ConfidenceSpec(m, polys[j], grid, wallLayers),
                                          sourceLayer := Some(polys[j].layer))
  }

  /**
   * Every classified wall is an edge of a kept polyline, carrying that polyline's layer and
   * score, and every score is a valid confidence in [0.4, 1.0].
   */
  lemma {:induction false} ClassifiedWallsFacts(m: Math, cfg: ClassifierConfig, polys: seq<PolylineData>,
                                                grid: Option<BuildingGrid>, wallLayers: Option<seq<string>>)
    requires ValidMath(m)
    ensures forall w :: w in ClassifySpec(m, cfg, polys, grid, wallLayers) ==>
      FromKeptPolyline(m, cfg, polys, grid, wallLayers, w) && 0.4 <= w.confidence <= 1.0
  {
    if polys != [] {
      var init := polys[..|polys| - 1];
      var last := polys[|polys| - 1];
      ClassifiedWallsFacts(m, cfg, init, grid, wallLayers);
      ClassifySnoc(m, cfg, polys, grid, wallLayers);
      ConfidenceRange(m, last, grid, wallLayers);
      forall w | w in ClassifySpec(m, cfg, polys, grid, wallLayers)
        ensures FromKeptPolyline(m, cfg, polys, grid, wallLayers, w) && 0.4 <= w.confidence <= 1.0
      {
        if w in ClassifySpec(m, cfg, init, grid, wallLayers) {
          var j, i :| 0 <= j < |init| && 0 <= i < |init[j].points| && Kept(m, cfg, init[j])
            && w == EdgeWall(cfg, init[j], i).(confidence := ConfidenceSpec(m, init[j], grid, wallLayers),
                                               sourceLayer := Some(init[j].layer));
          assert polys[j] == init[j];
        } else {
          var r := PolylineResult(m, cfg, last, grid, wallLayers);
          assert w in r;
          var i :| 0 <= i < |r| && r[i] == w;
          assert polys[|polys| - 1] == last;
        }
      }
    }
  }

  /** `classify` emits as many walls as the kept polylines have vertices. */
  function KeptVertexCount(m: Math, cfg: ClassifierConfig, polys: seq<PolylineData>): nat
    requires ValidMath(m)
  {
    if polys == [] then 0
    else KeptVertexCount(m, cfg, polys[..|polys| - 1])
         + (if Kept(m, cfg, polys[|polys| - 1]) then |polys[|polys| - 1].points| else 0)
  }

  lemma {:induction false} ClassifyCount(m: Math, cfg: ClassifierConfig, polys: seq<PolylineData>,
                                         grid: Option<BuildingGrid>, wallLayers: Option<seq<string>>)
    requires ValidMath(m)
    ensures |ClassifySpec(m, cfg, polys, grid, wallLayers)| == KeptVertexCount(m, cfg, polys)
  {
    if polys != [] {
      ClassifyCount(m, cfg, polys[..|polys| - 1], grid, wallLayers);
      ClassifySnoc(m, cfg, polys, grid, wallLayers);
    }
  }

  /** An open polyline never yields walls. */
  lemma OpenPolylineDropped(m: Math, cfg: ClassifierConfig, poly: PolylineData,
                            grid: Option<BuildingGrid>, wallLayers: Option<seq<string>>)
    requires ValidMath(m) && !poly.isClosed
    ensures ClassifySpec(m, cfg, [poly], grid, wallLayers) == []
  {
    assert [poly][..0] == [];
    ClassifySnoc(m, cfg, [poly], grid, wallLayers);
  }

  /** Stamps one polyline's walls and appends them, as the inner loop of `classify` does. */
  method AppendStamped(walls: seq<Wall>, segments: seq<Wall>, confidence: real, layer: string)
    returns (out: seq<Wall>)
    ensures out == walls + Stamped(segments, confidence, layer)
  {
    out := walls;
    for k := 0 to |segments|
      invariant out == walls + Stamped(segments, confidence, layer)[..k]
    {
      var wall := segments[k].(confidence := confidence, sourceLayer := Some(layer));
      out := out + [wall];
    }
    assert Stamped(segments, confidence, layer)[..|segments|] == Stamped(segments, confidence, layer);
  }

  /** `WallClassifier.classify`. */
  method Classify(m: Math, cfg: ClassifierConfig, polylines: seq<PolylineData>,
                  grid: Option<BuildingGrid>, wallLayers: Option<seq<string>>) returns (walls: seq<Wall>)
    requires ValidMath(m)
    ensures walls == ClassifySpec(m, cfg, polylines, grid, wallLayers)
  {
    walls := [];
    for j := 0 to |polylines|
      invariant walls == ClassifySpec(m, cfg, polylines[..j], grid, wallLayers)
    {
      assert polylines[..j + 1][..j] == polylines[..j];
      ClassifySnoc(m, cfg, polylines[..j + 1], grid, wallLayers);
      var poly := polylines[j];
      if !poly.isClosed {
        continue;
      }
      var perimeter := PolylinePerimeter(m, poly);
      var area := PolylineArea(poly);
      if !(cfg.minPerimeter <= perimeter <= cfg.maxPerimeter) {
        continue;
      }
      if !(cfg.minArea <= area <= cfg.maxArea) {
        continue;
      }
      var confidence := CalculateConfidence(m, poly, grid, wallLayers);
      var segments := PolylineToWalls(cfg, poly);
      walls := AppendStamped(walls, segments, confidence, poly.layer);
    }
    assert polylines[..|polylines|] == polylines;
  }

  /** `classify_exterior_vs_interior`: the refinement is not implemented and returns its input as it is. */
  function ClassifyExteriorVsInterior(walls: seq<Wall>, grid: Option<BuildingGrid>): (r: seq<Wall>)
    ensures r == walls
  {
    walls
  }
}
