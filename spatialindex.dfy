/**
 * The boxes the spatial index stores and queries: one 3-D box per element kind, and the cube
 * round a point that a radius query searches.
 */
module SpatialIndexing {
  import opened Numeric
  import opened Wrappers
  import opened Models
  import PolylineExtraction

  /** The element kinds the index is handed; `OtherElement` stands for any kind it has no rule for, such as a foundation. */
  datatype Element =
    | GridLineElement(gridLine: GridLine)
    | IntersectionElement(intersection: GridIntersection)
    | WallElement(wall: Wall)
    | ColumnElement(column: Column)
    | SlabElement(slab: Slab)
    | OtherElement

  /** The buffer round a grid intersection, in mm. */
  const IntersectionBuffer: real := 10.0

  /**
   * `_calculate_bbox`: `Success(None)` for a kind without a rule, `Failure` where Python's
   * `min` of an empty slab boundary raises.
   */
  function CalculateBox(e: Element): (r: Result<Option<BoundingBox>>)
    ensures r.Failure? <==> e.SlabElement? && e.slab.boundary == []
    ensures r.Success? ==> (r.value.None? <==> e.OtherElement?)
  {
    match e
      case GridLineElement(g) =>
        var s, t := g.line.start, g.line.end;
        Success(Some(BoundingBox(Min(s.x, t.x), Min(s.y, t.y), Max(s.x, t.x), Max(s.y, t.y), 0.0, 0.0)))
      case IntersectionElement(i) =>
        var p := i.point;
        Success(Some(BoundingBox(p.x - IntersectionBuffer, p.y - IntersectionBuffer,
                                 p.x + IntersectionBuffer, p.y + IntersectionBuffer, 0.0, 0.0)))
      case WallElement(w) =>
        var s, t, h := w.centerline.start, w.centerline.end, w.thickness / 2.0;
        Success(Some(BoundingBox(Min(s.x, t.x) - h, Min(s.y, t.y) - h, Max(s.x, t.x) + h, Max(s.y, t.y) + h,
                                 0.0, w.height)))
      case ColumnElement(c) =>
        var p := c.location;
        Success(Some(BoundingBox(p.x - c.width / 2.0, p.y - c.depth / 2.0, p.x + c.width / 2.0, p.y + c.depth / 2.0,
                                 0.0, c.height)))
      case SlabElement(s) =>
        if s.boundary == [] then Failure("ValueError: min() arg is an empty sequence")
        else
          var xs, ys := PolylineExtraction.Xs(s.boundary), PolylineExtraction.Ys(s.boundary);
          Success(Some(BoundingBox(SeqMin(xs), SeqMin(ys), SeqMax(xs), SeqMax(ys), s.elevation, s.elevation + s.thickness)))
      case OtherElement => Success(None)
  }

  /** A 3-D point inside a box, inclusive on every face. */
  predicate InBox(b: BoundingBox, x: real, y: real, z: real)
  {
    b.minX <= x <= b.maxX && b.minY <= y <= b.maxY && b.minZ <= z <= b.maxZ
  }

  /** A box whose lower corner does not exceed its upper corner on any axis. */
  predicate WellFormed(b: BoundingBox)
  {
    b.minX <= b.maxX && b.minY <= b.maxY && b.minZ <= b.maxZ
  }

  /**
   * Each box holds the points its element is drawn through at the element's base: a grid
   * line's endpoints, an intersection, a wall's centreline ends, a column's location, every
   * slab vertex at its elevation.
   */
  lemma BoxContainsElement(e: Element)
    requires CalculateBox(e).Success? && CalculateBox(e).value.Some?
    requires e.WallElement? ==> e.wall.thickness >= 0.0 && e.wall.height >= 0.0
    requires e.ColumnElement? ==> e.column.width >= 0.0 && e.column.depth >= 0.0 && e.column.height >= 0.0
    requires e.SlabElement? ==> e.slab.thickness >= 0.0
    ensures var b := CalculateBox(e).value.value;
      && WellFormed(b)
      && (e.GridLineElement? ==>
            InBox(b, e.gridLine.line.start.x, e.gridLine.line.start.y, 0.0)
            && InBox(b, e.gridLine.line.end.x, e.gridLine.line.end.y, 0.0))
      && (e.IntersectionElement? ==> InBox(b, e.intersection.point.x, e.intersection.point.y, 0.0))
      && (e.WallElement? ==>
            InBox(b, e.wall.centerline.start.x, e.wall.centerline.start.y, 0.0)
            && InBox(b, e.wall.centerline.end.x, e.wall.centerline.end.y, 0.0))
      && (e.ColumnElement? ==> InBox(b, e.column.location.x, e.column.location.y, 0.0))
      && (e.SlabElement? ==>
            forall k :: 0 <= k < |e.slab.boundary| ==> InBox(b, e.slab.boundary[k].x, e.slab.boundary[k].y, e.slab.elevation))
  {
  }

  /**
   * The extents are tight: each face of a box is reached by the element, so no smaller box
   * aligned with the axes holds the same points (a grid line's endpoints, a slab's vertices).
   */
  lemma BoxIsTight(e: Element)
    requires e.GridLineElement? || (e.SlabElement? && e.slab.boundary != [])
    ensures var b := CalculateBox(e).value.value;
      var pts := if e.GridLineElement? then [e.gridLine.line.start, e.gridLine.line.end] else e.slab.boundary;
      && (exists k :: 0 <= k < |pts| && pts[k].x == b.minX)
      && (exists k :: 0 <= k < |pts| && pts[k].x == b.maxX)
      && (exists k :: 0 <= k < |pts| && pts[k].y == b.minY)
      && (exists k :: 0 <= k < |pts| && pts[k].y == b.maxY)
  {
    var b := CalculateBox(e).value.value;
    if e.SlabElement? {
      var pts := e.slab.boundary;
      var xs, ys := PolylineExtraction.Xs(pts), PolylineExtraction.Ys(pts);
      var i :| 0 <= i < |xs| && xs[i] == b.minX;
      var j :| 0 <= j < |xs| && xs[j] == b.maxX;
      var k :| 0 <= k < |ys| && ys[k] == b.minY;
      var l :| 0 <= l < |ys| && ys[l] == b.maxY;
      assert pts[i].x == b.minX && pts[j].x == b.maxX && pts[k].y == b.minY && pts[l].y == b.maxY;
    } else {
      var pts := [e.gridLine.line.start, e.gridLine.line.end];
      assert b.minX == pts[0].x || b.minX == pts[1].x;
      assert b.maxX == pts[0].x || b.maxX == pts[1].x;
      assert b.minY == pts[0].y || b.minY == pts[1].y;
      assert b.maxY == pts[0].y || b.maxY == pts[1].y;
    }
  }

  /** The box `query_by_point` hands to the box query: half-side `radius` on every axis, centred at height zero. */
  function QueryBox(p: Point2D, radius: real): (r: BoundingBox)
    ensures radius >= 0.0 ==> WellFormed(r) && InBox(r, p.x, p.y, 0.0)
    ensures r.maxX - r.minX == r.maxY - r.minY == r.maxZ - r.minZ == 2.0 * radius
  {
    BoundingBox(p.x - radius, p.y - radius, p.x + radius, p.y + radius, -radius, radius)
  }

  /** The query cube covers the disc it stands for: every point within `radius` lies in its base. */
  lemma QueryBoxCoversDisc(m: Math, p: Point2D, q: Point2D, radius: real)
    requires ValidMath(m) && radius >= 0.0 && DistanceTo(m, p, q) <= radius
    ensures InBox(QueryBox(p, radius), q.x, q.y, 0.0)
  {
    var dx, dy := p.x - q.x, p.y - q.y;
    CoordinateWithin(m, p, q, radius, dx, dy);
    CoordinateWithin(m, p, q, radius, dy, dx);
  }

  lemma CoordinateWithin(m: Math, p: Point2D, q: Point2D, radius: real, a: real, b: real)
    requires ValidMath(m) && radius >= 0.0 && DistanceTo(m, p, q) <= radius
    requires SqDist(p, q) == a * a + b * b || SqDist(p, q) == b * b + a * a
    ensures -radius <= a <= radius
  {
    MulSigns(b, b);
    MulSigns(a, a);
    SqrtLessEq(m, SqDist(p, q), radius);
    if Abs(a) > radius {
      SquareLess(radius, Abs(a));
    }
  }
}
