/**
 * Column placement at grid intersections: the confidence filter, the optional exclusion
 * of intersections on the grid's outer lines, and per-label resizing.
 */
module ColumnGeneration {
  import opened Wrappers
  import opened Models

  /** The generator's column dimensions and its confidence threshold. */
  datatype GeneratorConfig = GeneratorConfig(defaultWidth: real, defaultDepth: real, defaultHeight: real, minConfidence: real)

  /** The constructor defaults of `ColumnGenerator`. */
  const DefaultGenerator := GeneratorConfig(300.0, 300.0, 3000.0, 0.7)

  // ---------------------------------------------------------------- perimeter labels

  /** `g` lies on the first or last horizontal line (`vertical` false) or vertical line (`vertical` true). */
  predicate OnEdge(grid: BuildingGrid, g: GridIntersection, vertical: bool)
  {
    var lines := if vertical then grid.verticalLines else grid.horizontalLines;
    var name := if vertical then g.gridV else g.gridH;
    lines != [] && (name == lines[0].labelText || name == lines[|lines| - 1].labelText)
  }

  predicate OnPerimeter(grid: BuildingGrid, g: GridIntersection)
  {
    OnEdge(grid, g, false) || OnEdge(grid, g, true)
  }

  /** The labels of the intersections of `ints` on an edge line of one orientation. */
  function EdgeLabels(grid: BuildingGrid, ints: seq<GridIntersection>, vertical: bool): set<Label>
  {
    if ints == [] then {}
    else
      var last := ints[|ints| - 1];
      EdgeLabels(grid, ints[..|ints| - 1], vertical) + (if OnEdge(grid, last, vertical) then {IntersectionLabel(last)} else {})
  }

  /** `_get_perimeter_labels`: the labels of the intersections on the outer lines of either orientation. */
  function PerimeterLabelsSpec(grid: BuildingGrid): set<Label>
  {
    EdgeLabels(grid, grid.intersections, false) + EdgeLabels(grid, grid.intersections, true)
  }

  lemma {:induction false} EdgeLabelsMembers(grid: BuildingGrid, ints: seq<GridIntersection>, vertical: bool, lbl: Label)
    ensures lbl in EdgeLabels(grid, ints, vertical) <==>
      exists k :: 0 <= k < |ints| && OnEdge(grid, ints[k], vertical) && IntersectionLabel(ints[k]) == lbl
  {
    if ints != [] {
      var init := ints[..|ints| - 1];
      EdgeLabelsMembers(grid, init, vertical, lbl);
      if exists k :: 0 <= k < |ints| && OnEdge(grid, ints[k], vertical) && IntersectionLabel(ints[k]) == lbl {
        var k :| 0 <= k < |ints| && OnEdge(grid, ints[k], vertical) && IntersectionLabel(ints[k]) == lbl;
        if k < |init| {
          assert init[k] == ints[k];
        }
      }
      if exists k :: 0 <= k < |init| && OnEdge(grid, init[k], vertical) && IntersectionLabel(init[k]) == lbl {
        var k :| 0 <= k < |init| && OnEdge(grid, init[k], vertical) && IntersectionLabel(init[k]) == lbl;
        assert ints[k] == init[k];
      }
    }
  }

  /**
   * A label is a perimeter label exactly when some intersection on an outer line carries it,
   * and there are none when the grid has no lines.
   */
  lemma PerimeterLabelsMembers(grid: BuildingGrid, lbl: Label)
    ensures lbl in PerimeterLabelsSpec(grid) <==>
      exists k :: 0 <= k < |grid.intersections| && OnPerimeter(grid, grid.intersections[k])
        && IntersectionLabel(grid.intersections[k]) == lbl
    ensures grid.horizontalLines == [] && grid.verticalLines == [] ==> lbl !in PerimeterLabelsSpec(grid)
  {
    EdgeLabelsMembers(grid, grid.intersections, false, lbl);
    EdgeLabelsMembers(grid, grid.intersections, true, lbl);
  }

  /** One loop of `_get_perimeter_labels`: add the labels of the intersections on the given edge lines. */
  method AddEdgeLabels(grid: BuildingGrid, vertical: bool, perimeter: set<Label>) returns (out: set<Label>)
    requires (if vertical then grid.verticalLines else grid.horizontalLines) != []
    ensures out == perimeter + EdgeLabels(grid, grid.intersections, vertical)
  {
    var lines := if vertical then grid.verticalLines else grid.horizontalLines;
    var first, last := lines[0].labelText, lines[|lines| - 1].labelText;
    var ints := grid.intersections;
    out := perimeter;
    for k := 0 to |ints|
      invariant out == perimeter + EdgeLabels(grid, ints[..k], vertical)
    {
      assert ints[..k + 1][..k] == ints[..k];
      var name := if vertical then ints[k].gridV else ints[k].gridH;
      if name == first || name == last {
        out := out + {IntersectionLabel(ints[k])};
      }
    }
    assert ints[..|ints|] == ints;
  }

  lemma {:induction false} EdgeLabelsNoLines(grid: BuildingGrid, ints: seq<GridIntersection>, vertical: bool)
    requires (if vertical then grid.verticalLines else grid.horizontalLines) == []
    ensures EdgeLabels(grid, ints, vertical) == {}
  {
    if ints != [] {
      EdgeLabelsNoLines(grid, ints[..|ints| - 1], vertical);
    }
  }

  /** `ColumnGenerator._get_perimeter_labels`. */
  method GetPerimeterLabels(grid: BuildingGrid) returns (perimeter: set<Label>)
    ensures perimeter == PerimeterLabelsSpec(grid)
  {
    perimeter := {};
    if grid.horizontalLines != [] {
      perimeter := AddEdgeLabels(grid, false, perimeter);
    } else {
      EdgeLabelsNoLines(grid, grid.intersections, false);
    }
    if grid.verticalLines != [] {
      perimeter := AddEdgeLabels(grid, true, perimeter);
    } else {
      EdgeLabelsNoLines(grid, grid.intersections, true);
    }
  }

  // ---------------------------------------------------------------- generation

  /** The column `generate` places on `g`. */
  function ColumnAt(cfg: GeneratorConfig, g: GridIntersection): Column
  {
    Column(g.point, cfg.defaultWidth, cfg.defaultDepth, cfg.defaultHeight, 0.0, Some(IntersectionLabel(g)), g.confidence)
  }

  /** `g` gets a column: its confidence reaches the threshold and it is not excluded by label. */
  predicate Emitted(cfg: GeneratorConfig, g: GridIntersection, excludePerimeter: bool, perimeter: set<Label>)
  {
    !(g.confidence < cfg.minConfidence) && !(excludePerimeter && IntersectionLabel(g) in perimeter)
  }

  /** The columns for the intersections `ints`, in order. */
  function ColumnsFrom(cfg: GeneratorConfig, ints: seq<GridIntersection>, excludePerimeter: bool, perimeter: set<Label>)
    : (r: seq<Column>)
    ensures |r| <= |ints|
  {
    if ints == [] then []
    else
      var last := ints[|ints| - 1];
      ColumnsFrom(cfg, ints[..|ints| - 1], excludePerimeter, perimeter)
        + (if Emitted(cfg, last, excludePerimeter, perimeter) then [ColumnAt(cfg, last)] else [])
  }

  /** `generate`: the perimeter labels are computed only when they are to be excluded. */
  function GenerateSpec(cfg: GeneratorConfig, grid: BuildingGrid, excludePerimeter: bool): seq<Column>
  {
    ColumnsFrom(cfg, grid.intersections, excludePerimeter, if excludePerimeter then PerimeterLabelsSpec(grid) else {})
  }

  /** Intersections are handled one at a time: the columns of a concatenation are the concatenation. */
  lemma {:induction false} ColumnsFromAppend(cfg: GeneratorConfig, a: seq<GridIntersection>, b: seq<GridIntersection>,
                                             excludePerimeter: bool, perimeter: set<Label>)
    ensures ColumnsFrom(cfg, a + b, excludePerimeter, perimeter)
         == ColumnsFrom(cfg, a, excludePerimeter, perimeter) + ColumnsFrom(cfg, b, excludePerimeter, perimeter)
    decreases |b|
  {
    if b == [] {
      assert a + b == a;
    } else {
      var ab := a + b;
      assert ab[..|ab| - 1] == a + b[..|b| - 1];
      assert ab[|ab| - 1] == b[|b| - 1];
      ColumnsFromAppend(cfg, a, b[..|b| - 1], excludePerimeter, perimeter);
    }
  }

  /** A column is emitted exactly for each intersection that passes both filters. */
  lemma {:induction false} ColumnsFromMembers(cfg: GeneratorConfig, ints: seq<GridIntersection>, excludePerimeter: bool,
                                              perimeter: set<Label>, c: Column)
    ensures c in ColumnsFrom(cfg, ints, excludePerimeter, perimeter) <==>
      exists k :: 0 <= k < |ints| && Emitted(cfg, ints[k], excludePerimeter, perimeter) && c == ColumnAt(cfg, ints[k])
  {
    if ints != [] {
      var init := ints[..|ints| - 1];
      ColumnsFromMembers(cfg, init, excludePerimeter, perimeter, c);
      if exists k :: 0 <= k < |ints| && Emitted(cfg, ints[k], excludePerimeter, perimeter) && c == ColumnAt(cfg, ints[k]) {
        var k :| 0 <= k < |ints| && Emitted(cfg, ints[k], excludePerimeter, perimeter) && c == ColumnAt(cfg, ints[k]);
        if k < |init| {
          assert init[k] == ints[k];
        }
      }
      if exists k :: 0 <= k < |init| && Emitted(cfg, init[k], excludePerimeter, perimeter) && c == ColumnAt(cfg, init[k]) {
        var k :| 0 <= k < |init| && Emitted(cfg, init[k], excludePerimeter, perimeter) && c == ColumnAt(cfg, init[k]);
        assert ints[k] == init[k];
      }
    }
  }

  /**
   * Every generated column stands on an intersection whose confidence reaches the threshold,
   * with its point, label and confidence; when the perimeter is excluded no column stands on
   * an intersection of an outer line; when it is not, every confident intersection gets one.
   */
  lemma GenerateFacts(cfg: GeneratorConfig, grid: BuildingGrid, excludePerimeter: bool, c: Column)
    ensures c in GenerateSpec(cfg, grid, excludePerimeter) ==>
      exists k :: 0 <= k < |grid.intersections| && c == ColumnAt(cfg, grid.intersections[k])
        && grid.intersections[k].confidence >= cfg.minConfidence
        && (excludePerimeter ==> !OnPerimeter(grid, grid.intersections[k]))
    ensures !excludePerimeter ==>
      forall k :: 0 <= k < |grid.intersections| && grid.intersections[k].confidence >= cfg.minConfidence ==>
        ColumnAt(cfg, grid.intersections[k]) in GenerateSpec(cfg, grid, excludePerimeter)
  {
    var ints := grid.intersections;
    var perimeter := if excludePerimeter then PerimeterLabelsSpec(grid) else {};
    ColumnsFromMembers(cfg, ints, excludePerimeter, perimeter, c);
    if c in GenerateSpec(cfg, grid, excludePerimeter) {
      var k :| 0 <= k < |ints| && Emitted(cfg, ints[k], excludePerimeter, perimeter) && c == ColumnAt(cfg, ints[k]);
      if excludePerimeter && OnPerimeter(grid, ints[k]) {
        PerimeterLabelsMembers(grid, IntersectionLabel(ints[k]));
      }
    }
    if !excludePerimeter {
      forall k | 0 <= k < |ints| && ints[k].confidence >= cfg.minConfidence
        ensures ColumnAt(cfg, ints[k]) in GenerateSpec(cfg, grid, excludePerimeter)
      {
        ColumnsFromMembers(cfg, ints, false, {}, ColumnAt(cfg, ints[k]));
      }
    }
  }

  /** The filtering loop of `generate`. */
  method ColumnsLoop(cfg: GeneratorConfig, ints: seq<GridIntersection>, excludePerimeter: bool, perimeter: set<Label>)
    returns (columns: seq<Column>)
    ensures columns == ColumnsFrom(cfg, ints, excludePerimeter, perimeter)
  {
    columns := [];
    for k := 0 to |ints|
      invariant columns == ColumnsFrom(cfg, ints[..k], excludePerimeter, perimeter)
    {
      assert ints[..k + 1][..k] == ints[..k];
      var intersection := ints[k];
      if intersection.confidence < cfg.minConfidence {
        continue;
      }
      if excludePerimeter && IntersectionLabel(intersection) in perimeter {
        continue;
      }
      var column := Column(intersection.point, cfg.defaultWidth, cfg.defaultDepth, cfg.defaultHeight,
                           0.0, Some(IntersectionLabel(intersection)), intersection.confidence);
      columns := columns + [column];
    }
    assert ints[..|ints|] == ints;
  }

  /** `ColumnGenerator.generate`. */
  method Generate(cfg: GeneratorConfig, grid: BuildingGrid, excludePerimeter: bool) returns (columns: seq<Column>)
    ensures columns == GenerateSpec(cfg, grid, excludePerimeter)
  {
    var perimeter: set<Label> := {};
    if excludePerimeter {
      perimeter := GetPerimeterLabels(grid);
    }
    columns := ColumnsLoop(cfg, grid.intersections, excludePerimeter, perimeter);
  }

  // ---------------------------------------------------------------- custom sizes

  /** The column with its width and depth taken from `sizes` when its reference is a key. */
  function ResizedColumn(c: Column, sizes: map<Label, (real, real)>): Column
  {
    if c.gridReference.Some? && c.gridReference.value in sizes then
      c.(width := sizes[c.gridReference.value].0, depth := sizes[c.gridReference.value].1)
    else c
  }

  function Resized(cols: seq<Column>, sizes: map<Label, (real, real)>): (r: seq<Column>)
    ensures |r| == |cols|
  {
    seq(|cols|, k requires 0 <= k < |cols| => ResizedColumn(cols[k], sizes))
  }

  /**
   * Resizing changes only width and depth, exactly for the columns whose reference is a key,
   * and resizing twice with the same table changes nothing more.
   */
  lemma ResizedFacts(cols: seq<Column>, sizes: map<Label, (real, real)>, k: nat)
    requires k < |cols|
    ensures var c, r := cols[k], Resized(cols, sizes)[k];
      && r.location == c.location && r.height == c.height && r.rotation == c.rotation
      && r.gridReference == c.gridReference && r.confidence == c.confidence
      && (c.gridReference.Some? && c.gridReference.value in sizes ==>
            (r.width, r.depth) == sizes[c.gridReference.value])
      && (!(c.gridReference.Some? && c.gridReference.value in sizes) ==> r == c)
    ensures Resized(Resized(cols, sizes), sizes) == Resized(cols, sizes)
  {
  }

  /** The sizing loop of `generate_with_sizing`, writing width and depth in place. */
  method ApplySizes(columns: array<Column>, sizes: map<Label, (real, real)>)
    modifies columns
    ensures columns[..] == Resized(old(columns[..]), sizes)
  {
    for k := 0 to columns.Length
      invariant columns[..k] == Resized(old(columns[..]), sizes)[..k]
      invariant forall j :: k <= j < columns.Length ==> columns[j] == old(columns[j])
    {
      var column := columns[k];
      if column.gridReference.Some? && column.gridReference.value in sizes {
        var (width, depth) := sizes[column.gridReference.value];
        column := column.(width := width, depth := depth);
      }
      columns[k] := column;
      assert columns[..k + 1] == columns[..k] + [column];
    }
  }

  /** `ColumnGenerator.generate_with_sizing`: every intersection column, resized from the table. */
  method GenerateWithSizing(cfg: GeneratorConfig, grid: BuildingGrid, sizes: map<Label, (real, real)>)
    returns (columns: seq<Column>)
    ensures columns == Resized(GenerateSpec(cfg, grid, false), sizes)
  {
    var generated := Generate(cfg, grid, false);
    var buffer := new Column[|generated|](k requires 0 <= k < |generated| => generated[k]);
    assert buffer[..] == generated;
    ApplySizes(buffer, sizes);
    columns := buffer[..];
  }
}
