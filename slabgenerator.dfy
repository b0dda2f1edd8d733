/**
 * Slab generation: a rectangular slab over the grid's extents, grown by a margin on every
 * side; the wall-based variant falls back to it.
 */
module SlabGeneration {
  import opened Numeric
  import opened Wrappers
  import opened Models
  import PolylineExtraction

  /** The generator's slab thickness and elevation, and the margin beyond the grid. */
  datatype SlabConfig = SlabConfig(defaultThickness: real, defaultElevation: real, expandBeyondGrid: real)

  /** The constructor defaults of `SlabGenerator` with the given thickness. */
  function SlabDefaults(thickness: real): SlabConfig
  {
    SlabConfig(thickness, 0.0, 500.0)
  }

  /** The grid's box grown by `e` on every side, counter-clockwise from the lower-left corner. */
  function ExpandedBoundary(b: BoundingBox, e: real): (r: seq<Point2D>)
    ensures |r| == 4
    ensures r[0].x == r[3].x == b.minX - e && r[1].x == r[2].x == b.maxX + e
    ensures r[0].y == r[1].y == b.minY - e && r[2].y == r[3].y == b.maxY + e
  {
    [ Point2D(b.minX - e, b.minY - e),
      Point2D(b.maxX + e, b.minY - e),
      Point2D(b.maxX + e, b.maxY + e),
      Point2D(b.minX - e, b.maxY + e) ]
  }

  /** `generate_from_grid`. */
  function GenerateFromGrid(cfg: SlabConfig, grid: BuildingGrid): (r: Slab)
    ensures r.boundary == ExpandedBoundary(grid.boundingBox, cfg.expandBeyondGrid)
    ensures r.thickness == cfg.defaultThickness && r.elevation == cfg.defaultElevation && !r.isRoof
    ensures grid.confidence >= 0.0 ==> r.confidence <= grid.confidence
    ensures ValidConfidence(grid.confidence) ==> ValidConfidence(r.confidence)
  {
    Slab(ExpandedBoundary(grid.boundingBox, cfg.expandBeyondGrid), cfg.defaultThickness, cfg.defaultElevation,
         false, grid.confidence * 0.9)
  }

  /** For a non-negative margin, the slab covers every point of the grid's box. */
  lemma SlabCoversGrid(cfg: SlabConfig, grid: BuildingGrid, p: Point2D)
    requires cfg.expandBeyondGrid >= 0.0 && ContainsPoint(grid.boundingBox, p)
    ensures var bd := GenerateFromGrid(cfg, grid).boundary;
      bd[0].x <= p.x <= bd[2].x && bd[0].y <= p.y <= bd[2].y
  {
  }

  /**
   * The boundary is the closed axis-aligned rectangle round the grown box, and its shoelace
   * area is the product of the grown extents (the area the source logs, in mm^2).
   */
  lemma SlabBoundaryArea(cfg: SlabConfig, grid: BuildingGrid)
    requires grid.boundingBox.minX <= grid.boundingBox.maxX && grid.boundingBox.minY <= grid.boundingBox.maxY
    requires cfg.expandBeyondGrid >= 0.0
    ensures var b, e := grid.boundingBox, cfg.expandBeyondGrid;
      PolylineExtraction.AreaSpec(PolylineExtraction.PolylineData(GenerateFromGrid(cfg, grid).boundary, true, ""))
        == (b.maxX - b.minX + 2.0 * e) * (b.maxY - b.minY + 2.0 * e)
  {
    var b, e := grid.boundingBox, cfg.expandBeyondGrid;
    var w, h := b.maxX - b.minX + 2.0 * e, b.maxY - b.minY + 2.0 * e;
    var rect := PolylineExtraction.AxisRectangle(b.minX - e, b.minY - e, w, h, "");
    assert rect == PolylineExtraction.PolylineData(GenerateFromGrid(cfg, grid).boundary, true, "");
    PolylineExtraction.AxisRectangleArea(b.minX - e, b.minY - e, w, h, "");
  }

  /**
   * `generate_from_walls`: wall tracing is not implemented, so the walls are ignored and the
   * result is the grid slab when a grid is given, else nothing.
   */
  function GenerateFromWalls(cfg: SlabConfig, walls: seq<Wall>, grid: Option<BuildingGrid>): (r: seq<Slab>)
    ensures grid.Some? ==> r == [GenerateFromGrid(cfg, grid.value)]
    ensures grid.None? ==> r == []
  {
    if grid.Some? then [GenerateFromGrid(cfg, grid.value)] else []
  }

  /** `generate_slabs`: the wall route for a non-empty wall list, the grid route otherwise. */
  function GenerateSlabs(grid: Option<BuildingGrid>, walls: Option<seq<Wall>>, slabThickness: real): seq<Slab>
  {
    var cfg := SlabDefaults(slabThickness);
    if walls.Some? && |walls.value| > 0 then GenerateFromWalls(cfg, walls.value, grid)
    else if grid.Some? then [GenerateFromGrid(cfg, grid.value)]
    else []
  }

  /**
   * Both routes agree: at most one slab, present exactly when a grid is given, whatever the
   * walls are.
   */
  lemma GenerateSlabsFacts(grid: Option<BuildingGrid>, walls1: Option<seq<Wall>>, walls2: Option<seq<Wall>>, t: real)
    ensures GenerateSlabs(grid, walls1, t) == GenerateSlabs(grid, walls2, t)
    ensures GenerateSlabs(grid, walls1, t) == (if grid.Some? then [GenerateFromGrid(SlabDefaults(t), grid.value)] else [])
  {
  }
}
