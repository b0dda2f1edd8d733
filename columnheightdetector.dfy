/**
 * Column heights from multi-floor analysis: a ground column reaches the highest-numbered
 * upper floor on which a column stands within tolerance of it, and detected heights are
 * written back onto columns by rounded position.
 */
module ColumnHeightDetection {
  import opened Numeric
  import opened Wrappers
  import opened Models

  // ---------------------------------------------------------------- floor keys

  /** Python's `<` on strings: lexicographic by code point, a proper prefix first. */
  predicate StrLess(a: string, b: string)
    decreases |a|
  {
    if a == [] then b != []
    else b != [] && (a[0] < b[0] || (a[0] == b[0] && StrLess(a[1..], b[1..])))
  }

  lemma {:induction false} StrLessIrreflexive(a: string)
    ensures !StrLess(a, a)
    decreases |a|
  {
    if a != [] {
      StrLessIrreflexive(a[1..]);
    }
  }

  lemma {:induction false} StrLessAsymmetric(a: string, b: string)
    ensures !(StrLess(a, b) && StrLess(b, a))
    decreases |a|
  {
    if a != [] && b != [] && a[0] == b[0] {
      StrLessAsymmetric(a[1..], b[1..]);
    }
  }

  lemma {:induction false} StrLessTransitive(a: string, b: string, c: string)
    requires StrLess(a, b) && StrLess(b, c)
    ensures StrLess(a, c)
    decreases |a|
  {
    if a != [] && a[0] == b[0] && b[0] == c[0] {
      StrLessTransitive(a[1..], b[1..], c[1..]);
    }
  }

  lemma {:induction false} StrLessTotal(a: string, b: string)
    requires a != b
    ensures StrLess(a, b) || StrLess(b, a)
    decreases |a|
  {
    if a != [] && b != [] && a[0] == b[0] {
      assert a == [a[0]] + a[1..] && b == [b[0]] + b[1..];
      StrLessTotal(a[1..], b[1..]);
    }
  }

  /** An upper floor: its number (the dictionary key) and the column positions detected on it. */
  type Floor = (string, seq<Point2D>)

  /** Dictionary keys are distinct. */
  predicate DistinctKeys(fs: seq<Floor>)
  {
    forall i, j :: 0 <= i < j < |fs| ==> fs[i].0 != fs[j].0
  }

  predicate Ascending(fs: seq<Floor>)
  {
    forall i, j :: 0 <= i < j < |fs| ==> StrLess(fs[i].0, fs[j].0)
  }

  function InsertFloor(fs: seq<Floor>, f: Floor): (r: seq<Floor>)
    ensures multiset(r) == multiset(fs) + multiset{f}
  {
    if fs == [] then [f]
    else if StrLess(f.0, fs[0].0) then [f] + fs
    else
      assert fs == [fs[0]] + fs[1..];
      [fs[0]] + InsertFloor(fs[1..], f)
  }

  /** `sorted(upper_floor_dxfs.items())`: the floors in ascending key order. */
  function SortFloors(fs: seq<Floor>): (r: seq<Floor>)
    ensures multiset(r) == multiset(fs)
  {
    if fs == [] then []
    else
      assert fs == fs[..|fs| - 1] + [fs[|fs| - 1]];
      InsertFloor(SortFloors(fs[..|fs| - 1]), fs[|fs| - 1])
  }

  lemma {:induction false} InsertFloorAscending(fs: seq<Floor>, f: Floor)
    requires Ascending(fs) && forall k :: 0 <= k < |fs| ==> fs[k].0 != f.0
    ensures Ascending(InsertFloor(fs, f))
    decreases |fs|
  {
    if fs != [] && !StrLess(f.0, fs[0].0) {
      StrLessTotal(f.0, fs[0].0);
      var tail := fs[1..];
      InsertFloorAscending(tail, f);
      assert forall k :: 0 <= k < |tail| ==> tail[k] == fs[k + 1];
      InsertFloorAbove(tail, f, fs[0].0);
      AscendingCons(fs[0], InsertFloor(tail, f));
    } else if fs != [] {
      forall k | 0 <= k < |fs| ensures StrLess(f.0, fs[k].0) {
        if k > 0 {
          StrLessTransitive(f.0, fs[0].0, fs[k].0);
        }
      }
    }
  }

  /** Inserting a floor keyed above `key` among floors keyed above `key` keeps every key above it. */
  lemma InsertFloorAbove(fs: seq<Floor>, f: Floor, key: string)
    requires StrLess(key, f.0) && forall k :: 0 <= k < |fs| ==> StrLess(key, fs[k].0)
    ensures forall k :: 0 <= k < |InsertFloor(fs, f)| ==> StrLess(key, InsertFloor(fs, f)[k].0)
  {
    var r := InsertFloor(fs, f);
    forall k | 0 <= k < |r| ensures StrLess(key, r[k].0) {
      assert r[k] in multiset(r);
      if r[k] != f {
        assert r[k] in multiset(fs);
        var j :| 0 <= j < |fs| && fs[j] == r[k];
      }
    }
  }

  /** A floor keyed below every key of an ascending list extends it in ascending order. */
  lemma AscendingCons(x: Floor, rest: seq<Floor>)
    requires Ascending(rest) && forall k :: 0 <= k < |rest| ==> StrLess(x.0, rest[k].0)
    ensures Ascending([x] + rest)
  {
    var s := [x] + rest;
    forall i, j | 0 <= i < j < |s| ensures StrLess(s[i].0, s[j].0) {
      assert s[j] == rest[j - 1];
      if i > 0 {
        assert s[i] == rest[i - 1];
      }
    }
  }

  /** The sorted floors are the same floors, in strictly ascending key order. */
  lemma {:induction false} SortFloorsAscending(fs: seq<Floor>)
    requires DistinctKeys(fs)
    ensures Ascending(SortFloors(fs))
  {
    if fs != [] {
      var init, f := fs[..|fs| - 1], fs[|fs| - 1];
      SortFloorsAscending(init);
      var s := SortFloors(init);
      forall k | 0 <= k < |s| ensures s[k].0 != f.0 {
        assert s[k] in multiset(init);
        var j :| 0 <= j < |init| && init[j] == s[k];
        assert fs[j] == init[j];
      }
      InsertFloorAscending(s, f);
    }
  }

  // ---------------------------------------------------------------- presence and height

  /** Some column of `cols` lies within `tol` of `g` on both axes, inclusive. */
  predicate Present(g: Point2D, cols: seq<Point2D>, tol: real)
  {
    exists c :: c in cols && Abs(g.x - c.x) <= tol && Abs(g.y - c.y) <= tol
  }

  /** The presence check of one floor: a scan that stops at the first column within tolerance. */
  method FoundOnFloor(g: Point2D, cols: seq<Point2D>, tol: real) returns (found: bool)
    ensures found == Present(g, cols, tol)
  {
    found := false;
    for k := 0 to |cols|
      invariant !found
      invariant forall j :: 0 <= j < k ==> !(Abs(g.x - cols[j].x) <= tol && Abs(g.y - cols[j].y) <= tol)
    {
      var dx := Abs(g.x - cols[k].x);
      var dy := Abs(g.y - cols[k].y);
      if dx <= tol && dy <= tol {
        found := true;
        break;
      }
    }
  }

  /** The reverse scan: the last floor of `fs` on which the column is present. */
  function HighestPresentFloor(g: Point2D, fs: seq<Floor>, tol: real): (r: Option<string>)
  {
    if fs == [] then None
    else if Present(g, fs[|fs| - 1].1, tol) then Some(fs[|fs| - 1].0)
    else HighestPresentFloor(g, fs[..|fs| - 1], tol)
  }

  /** The reverse scan finds the last floor in the list on which the column is present. */
  lemma {:induction false} HighestPresentLast(g: Point2D, fs: seq<Floor>, tol: real)
    ensures HighestPresentFloor(g, fs, tol).None? <==> forall k :: 0 <= k < |fs| ==> !Present(g, fs[k].1, tol)
    ensures HighestPresentFloor(g, fs, tol).Some? ==>
      exists k :: 0 <= k < |fs| && fs[k].0 == HighestPresentFloor(g, fs, tol).value && Present(g, fs[k].1, tol)
        && forall j :: k < j < |fs| ==> !Present(g, fs[j].1, tol)
  {
    if fs != [] && !Present(g, fs[|fs| - 1].1, tol) {
      var init := fs[..|fs| - 1];
      HighestPresentLast(g, init, tol);
      if HighestPresentFloor(g, init, tol).Some? {
        var k :| 0 <= k < |init| && init[k].0 == HighestPresentFloor(g, init, tol).value && Present(g, init[k].1, tol)
          && forall j :: k < j < |init| ==> !Present(g, init[j].1, tol);
        assert fs[k] == init[k];
        assert forall j :: k < j < |fs| ==> !Present(g, fs[j].1, tol) by {
          forall j | k < j < |fs| ensures !Present(g, fs[j].1, tol) {
            if j < |init| {
              assert fs[j] == init[j];
            }
          }
        }
      } else {
        forall k | 0 <= k < |fs| ensures !Present(g, fs[k].1, tol) {
          if k < |init| {
            assert fs[k] == init[k];
          }
        }
      }
    }
  }

  /**
   * Over the sorted floors, the scan picks the highest-keyed floor on which the column is
   * present: it is `None` exactly when the column is on no upper floor, and otherwise every
   * other floor with the column has a smaller key, so presence below it plays no part.
   */
  lemma HighestPresentIsMaximum(g: Point2D, upper: seq<Floor>, tol: real)
    requires DistinctKeys(upper)
    ensures var r := HighestPresentFloor(g, SortFloors(upper), tol);
      && (r.None? <==> forall f :: f in upper ==> !Present(g, f.1, tol))
      && (r.Some? ==> exists f :: f in upper && f.0 == r.value && Present(g, f.1, tol))
      && (r.Some? ==> forall f :: f in upper && Present(g, f.1, tol) && f.0 != r.value ==> StrLess(f.0, r.value))
  {
    var fs := SortFloors(upper);
    SortFloorsAscending(upper);
    forall f ensures f in upper <==> f in fs {
      assert f in multiset(upper) <==> f in multiset(fs);
    }
    LastPresentIsMaximum(g, fs, tol);
  }

  /** Over floors in ascending key order, the reverse scan picks the highest-keyed floor with the column. */
  lemma LastPresentIsMaximum(g: Point2D, fs: seq<Floor>, tol: real)
    requires Ascending(fs)
    ensures var r := HighestPresentFloor(g, fs, tol);
      && (r.None? <==> forall f :: f in fs ==> !Present(g, f.1, tol))
      && (r.Some? ==> exists f :: f in fs && f.0 == r.value && Present(g, f.1, tol))
      && (r.Some? ==> forall f :: f in fs && Present(g, f.1, tol) && f.0 != r.value ==> StrLess(f.0, r.value))
  {
    HighestPresentLast(g, fs, tol);
    var r := HighestPresentFloor(g, fs, tol);
    if r.Some? {
      var k :| 0 <= k < |fs| && fs[k].0 == r.value && Present(g, fs[k].1, tol)
        && forall j :: k < j < |fs| ==> !Present(g, fs[j].1, tol);
      forall f | f in fs && Present(g, f.1, tol) && f.0 != r.value ensures StrLess(f.0, r.value) {
        var j :| 0 <= j < |fs| && fs[j] == f;
        if j > k {
          assert false;
        } else if j == k {
          assert false;
        }
      }
    } else {
      forall f | f in fs ensures !Present(g, f.1, tol) {
        var j :| 0 <= j < |fs| && fs[j] == f;
      }
    }
  }

  /** `dict.get(key, default)`. */
  function Get(m: map<string, real>, key: string, default: real): real
  {
    if key in m then m[key] else default
  }

  /** `DEFAULT_FLOOR_ELEVATIONS`. */
  const DefaultFloorElevations: map<string, real> := map[
    "00" := 0.0, "01" := 0.0, "02" := 12000.0, "03" := 16000.0,
    "04" := 8000.0, "05" := 24000.0, "06" := 24000.0, "07" := 28000.0]

  /** The elevation a column tops out at when it is seen on no upper floor or its floor has no entry. */
  const DefaultTopElevation: real := 8000.0

  /** The height rule: the elevation of the highest floor with the column, less the ground elevation. */
  function ColumnHeight(g: Point2D, fs: seq<Floor>, elevations: map<string, real>, tol: real): real
  {
    var top := match HighestPresentFloor(g, fs, tol)
      case None => DefaultTopElevation
      case Some(k) => Get(elevations, k, DefaultTopElevation);
    top - Get(elevations, "01", 0.0)
  }

  /** Heights keyed by rounded ground position; a later column with the same key overwrites. */
  function HeightsSpec(ground: seq<Point2D>, fs: seq<Floor>, elevations: map<string, real>, tol: real): map<(int, int), real>
  {
    if ground == [] then map[]
    else
      var g := ground[|ground| - 1];
      HeightsSpec(ground[..|ground| - 1], fs, elevations, tol)[(Round(g.x), Round(g.y)) := ColumnHeight(g, fs, elevations, tol)]
  }

  function PositionKey(p: Point2D): (int, int)
  {
    (Round(p.x), Round(p.y))
  }

  /**
   * The keys are the rounded ground positions, and each holds the height of the last ground
   * column rounding to it.
   */
  lemma {:induction false} HeightsSpecLookup(ground: seq<Point2D>, fs: seq<Floor>, elevations: map<string, real>, tol: real, k: nat)
    requires k < |ground|
    requires forall j :: k < j < |ground| ==> PositionKey(ground[j]) != PositionKey(ground[k])
    ensures PositionKey(ground[k]) in HeightsSpec(ground, fs, elevations, tol)
    ensures HeightsSpec(ground, fs, elevations, tol)[PositionKey(ground[k])] == ColumnHeight(ground[k], fs, elevations, tol)
  {
    var init := ground[..|ground| - 1];
    if k < |ground| - 1 {
      assert forall j :: k < j < |init| ==> init[j] == ground[j];
      HeightsSpecLookup(init, fs, elevations, tol, k);
      assert init[k] == ground[k];
    }
  }

  lemma {:induction false} HeightsSpecKeys(ground: seq<Point2D>, fs: seq<Floor>, elevations: map<string, real>, tol: real)
    ensures forall key :: key in HeightsSpec(ground, fs, elevations, tol) <==>
      exists k :: 0 <= k < |ground| && PositionKey(ground[k]) == key
  {
    if ground != [] {
      var init := ground[..|ground| - 1];
      HeightsSpecKeys(init, fs, elevations, tol);
      forall key ensures key in HeightsSpec(ground, fs, elevations, tol) <==>
        exists k :: 0 <= k < |ground| && PositionKey(ground[k]) == key
      {
        if exists k :: 0 <= k < |ground| && PositionKey(ground[k]) == key {
          var k :| 0 <= k < |ground| && PositionKey(ground[k]) == key;
          if k < |init| {
            assert init[k] == ground[k];
          }
        }
        if exists k :: 0 <= k < |init| && PositionKey(init[k]) == key {
          var k :| 0 <= k < |init| && PositionKey(init[k]) == key;
          assert ground[k] == init[k];
        }
      }
    }
  }

  /** `detect_column_heights` on given column positions; `None` elevations mean the defaults. */
  function DetectSpec(ground: seq<Point2D>, upper: seq<Floor>, floorElevations: Option<map<string, real>>, tol: real)
    : map<(int, int), real>
  {
    var elevations := if floorElevations.None? then DefaultFloorElevations else floorElevations.value;
    HeightsSpec(ground, SortFloors(upper), elevations, tol)
  }

  /** The presence loop: whether the column appears on each floor, keyed by floor number. */
  method FloorPresence(g: Point2D, fs: seq<Floor>, tol: real) returns (presence: map<string, bool>)
    requires DistinctKeys(fs)
    ensures forall k :: 0 <= k < |fs| ==> fs[k].0 in presence && presence[fs[k].0] == Present(g, fs[k].1, tol)
  {
    presence := map[];
    for i := 0 to |fs|
      invariant forall k :: 0 <= k < i ==> fs[k].0 in presence && presence[fs[k].0] == Present(g, fs[k].1, tol)
    {
      var found := FoundOnFloor(g, fs[i].1, tol);
      presence := presence[fs[i].0 := found];
    }
  }

  /** The reverse scan with `break`: the elevation of the last floor marked present. */
  method LastElevation(g: Point2D, fs: seq<Floor>, presence: map<string, bool>, elevations: map<string, real>, tol: real)
    returns (lastElevation: real)
    requires forall k :: 0 <= k < |fs| ==> fs[k].0 in presence && presence[fs[k].0] == Present(g, fs[k].1, tol)
    ensures lastElevation == match HighestPresentFloor(g, fs, tol)
      case None => DefaultTopElevation
      case Some(k) => Get(elevations, k, DefaultTopElevation)
  {
    lastElevation := DefaultTopElevation;
    var i := |fs|;
    assert fs[..i] == fs;
    while i > 0
      invariant 0 <= i <= |fs|
      invariant lastElevation == DefaultTopElevation
      invariant HighestPresentFloor(g, fs, tol) == HighestPresentFloor(g, fs[..i], tol)
      decreases i
    {
      var key := fs[i - 1].0;
      assert fs[..i][..i - 1] == fs[..i - 1];
      if key in presence && presence[key] {
        lastElevation := Get(elevations, key, lastElevation);
        return;
      }
      i := i - 1;
    }
  }

  /** `detect_column_heights`, over the ground column positions and the upper floors' positions. */
  method DetectColumnHeights(ground: seq<Point2D>, upper: seq<Floor>, floorElevations: Option<map<string, real>>, tol: real)
    returns (heights: map<(int, int), real>)
    requires DistinctKeys(upper)
    ensures heights == DetectSpec(ground, upper, floorElevations, tol)
  {
    var elevations := if floorElevations.None? then DefaultFloorElevations else floorElevations.value;
    var fs := SortFloors(upper);
    SortFloorsDistinct(upper);
    var groundElevation := Get(elevations, "01", 0.0);
    heights := map[];
    for i := 0 to |ground|
      invariant heights == HeightsSpec(ground[..i], fs, elevations, tol)
    {
      var g := ground[i];
      var presence := FloorPresence(g, fs, tol);
      var lastElevation := LastElevation(g, fs, presence, elevations, tol);
      var height := lastElevation - groundElevation;
      HeightsSpecStep(ground, i, fs, elevations, tol, height);
      heights := heights[(Round(g.x), Round(g.y)) := height];
    }
    assert ground[..|ground|] == ground;
  }

  /** Sorting keeps the floor numbers distinct. */
  lemma SortFloorsDistinct(fs: seq<Floor>)
    requires DistinctKeys(fs)
    ensures DistinctKeys(SortFloors(fs))
  {
    var s := SortFloors(fs);
    SortFloorsAscending(fs);
    forall i, j | 0 <= i < j < |s| ensures s[i].0 != s[j].0 {
      StrLessIrreflexive(s[i].0);
    }
  }

  /** One step of the ground loop: the next column's height is stored under its rounded position. */
  lemma HeightsSpecStep(ground: seq<Point2D>, i: nat, fs: seq<Floor>, elevations: map<string, real>, tol: real, height: real)
    requires i < |ground|
    requires height == (match HighestPresentFloor(ground[i], fs, tol)
      case None => DefaultTopElevation
      case Some(k) => Get(elevations, k, DefaultTopElevation)) - Get(elevations, "01", 0.0)
    ensures HeightsSpec(ground[..i + 1], fs, elevations, tol)
      == HeightsSpec(ground[..i], fs, elevations, tol)[(Round(ground[i].x), Round(ground[i].y)) := height]
  {
    assert ground[..i + 1][..i] == ground[..i];
  }

  // ---------------------------------------------------------------- applying heights

  /** The column with the detected height at its rounded position, or the default. */
  function WithDetectedHeight(c: Column, detected: map<(int, int), real>, defaultHeight: real): Column
  {
    var pos := PositionKey(c.location);
    c.(height := if pos in detected then detected[pos] else defaultHeight)
  }

  function DetectedHeights(cols: seq<Column>, detected: map<(int, int), real>, defaultHeight: real): (r: seq<Column>)
    ensures |r| == |cols|
  {
    seq(|cols|, k requires 0 <= k < |cols| => WithDetectedHeight(cols[k], detected, defaultHeight))
  }

  /**
   * Only heights change: a column whose rounded position is a key gets that height, any other
   * the default; applying the same table again changes nothing.
   */
  lemma DetectedHeightsFacts(cols: seq<Column>, detected: map<(int, int), real>, defaultHeight: real, k: nat)
    requires k < |cols|
    ensures var c, r := cols[k], DetectedHeights(cols, detected, defaultHeight)[k];
      && r == c.(height := r.height)
      && (PositionKey(c.location) in detected ==> r.height == detected[PositionKey(c.location)])
      && (PositionKey(c.location) !in detected ==> r.height == defaultHeight)
    ensures DetectedHeights(DetectedHeights(cols, detected, defaultHeight), detected, defaultHeight)
         == DetectedHeights(cols, detected, defaultHeight)
  {
  }

  /** `apply_detected_heights`: writes each column's height in place; the list is returned as it is. */
  method ApplyDetectedHeights(columns: array<Column>, detected: map<(int, int), real>, defaultHeight: real)
    modifies columns
    ensures columns[..] == DetectedHeights(old(columns[..]), detected, defaultHeight)
  {
    for k := 0 to columns.Length
      invariant columns[..k] == DetectedHeights(old(columns[..]), detected, defaultHeight)[..k]
      invariant forall j :: k <= j < columns.Length ==> columns[j] == old(columns[j])
    {
      var pos := (Round(columns[k].location.x), Round(columns[k].location.y));
      if pos in detected {
        columns[k] := columns[k].(height := detected[pos]);
      } else {
        columns[k] := columns[k].(height := defaultHeight);
      }
      assert columns[..k + 1] == columns[..k] + [columns[k]];
    }
  }
}
