/**
 * Column heights from a reference model: each column takes the height recorded at its rounded
 * position, or else the height of the nearest reference position strictly within tolerance,
 * or else the default.
 */
module ColumnHeightFromReference {
  import opened Numeric
  import opened Wrappers
  import opened Models
  import ColumnHeightDetection

  /** The reference table as its items in insertion order: rounded (x, y) in mm and a height. */
  type RefItem = ((int, int), real)

  /** `pos in reference_heights` and the value stored under it. */
  function Lookup(refs: seq<RefItem>, pos: (int, int)): (r: Option<real>)
    ensures r.None? <==> forall k :: 0 <= k < |refs| ==> refs[k].0 != pos
    ensures r.Some? ==> exists k :: 0 <= k < |refs| && refs[k] == (pos, r.value)
  {
    if refs == [] then None
    else if refs[0].0 == pos then Some(refs[0].1)
    else
      var r := Lookup(refs[1..], pos);
      assert forall k :: 0 < k < |refs| ==> refs[k] == refs[1..][k - 1];
      r
  }

  /** `dx**2 + dy**2` for the absolute offsets between two integer positions. */
  function SquaredOffset(pos: (int, int), ref: (int, int)): (r: real)
    ensures r >= 0.0
  {
    var dx := Abs((pos.0 - ref.0) as real);
    var dy := Abs((pos.1 - ref.1) as real);
    MulSigns(dx, dx);
    MulSigns(dy, dy);
    dx * dx + dy * dy
  }

  /** The Euclidean distance between two integer positions. */
  function RefDistance(m: Math, pos: (int, int), ref: (int, int)): real
  {
    m.sqrt(SquaredOffset(pos, ref))
  }

  /**
   * The fuzzy scan over the items: the (distance, height) of the best item so far, replaced
   * only by one strictly within tolerance and strictly closer; `None` stands for the initial
   * infinite distance.
   */
  function BestFrom(m: Math, pos: (int, int), refs: seq<RefItem>, tol: real): Option<(real, real)>
  {
    if refs == [] then None
    else
      var b := BestFrom(m, pos, refs[..|refs| - 1], tol);
      var d := RefDistance(m, pos, refs[|refs| - 1].0);
      if d < tol && (b.None? || d < b.value.0) then Some((d, refs[|refs| - 1].1)) else b
  }

  /**
   * The fuzzy match is the nearest item strictly within tolerance, the earliest of the nearest
   * ones when several are equally close, and there is none exactly when no item is within
   * tolerance.
   */
  lemma {:induction false} BestFromIsNearest(m: Math, pos: (int, int), refs: seq<RefItem>, tol: real)
    ensures BestFrom(m, pos, refs, tol).None? <==> forall j :: 0 <= j < |refs| ==> RefDistance(m, pos, refs[j].0) >= tol
    ensures BestFrom(m, pos, refs, tol).Some? ==>
      var b := BestFrom(m, pos, refs, tol).value;
      exists k :: 0 <= k < |refs| && refs[k].1 == b.1 && RefDistance(m, pos, refs[k].0) == b.0 && b.0 < tol
        && (forall j :: 0 <= j < |refs| && RefDistance(m, pos, refs[j].0) < tol ==> b.0 <= RefDistance(m, pos, refs[j].0))
        && (forall j :: 0 <= j < k && RefDistance(m, pos, refs[j].0) < tol ==> b.0 < RefDistance(m, pos, refs[j].0))
  {
    if refs != [] {
      var init := refs[..|refs| - 1];
      var last := |refs| - 1;
      BestFromIsNearest(m, pos, init, tol);
      assert forall j :: 0 <= j < |init| ==> refs[j] == init[j];
      var b := BestFrom(m, pos, init, tol);
      var d := RefDistance(m, pos, refs[last].0);
      if d < tol && (b.None? || d < b.value.0) {
        assert refs[last].1 == BestFrom(m, pos, refs, tol).value.1;
      } else if b.Some? {
        var k :| 0 <= k < |init| && init[k].1 == b.value.1 && RefDistance(m, pos, init[k].0) == b.value.0 && b.value.0 < tol
          && (forall j :: 0 <= j < |init| && RefDistance(m, pos, init[j].0) < tol ==> b.value.0 <= RefDistance(m, pos, init[j].0))
          && (forall j :: 0 <= j < k && RefDistance(m, pos, init[j].0) < tol ==> b.value.0 < RefDistance(m, pos, init[j].0));
        assert refs[k] == init[k];
      }
    }
  }

  lemma AbsSquared(a: real)
    ensures Abs(a) * Abs(a) == a * a
  {
    if a < 0.0 {
      assert Abs(a) == -a;
      assert (-a) * (-a) == a * a;
    }
  }

  /** With a non-negative tolerance, an item is within tolerance exactly when its squared offset is below the squared tolerance. */
  lemma WithinToleranceSquared(m: Math, pos: (int, int), ref: (int, int), tol: real)
    requires ValidMath(m) && tol >= 0.0
    ensures var dx, dy := (pos.0 - ref.0) as real, (pos.1 - ref.1) as real;
      RefDistance(m, pos, ref) < tol <==> dx * dx + dy * dy < tol * tol
  {
    SqrtLess(m, SquaredOffset(pos, ref), tol);
    AbsSquared((pos.0 - ref.0) as real);
    AbsSquared((pos.1 - ref.1) as real);
  }

  /** The height a column receives from a non-empty table. */
  function ReferenceHeight(m: Math, c: Column, refs: seq<RefItem>, defaultHeight: real, tol: real): real
  {
    var pos := ColumnHeightDetection.PositionKey(c.location);
    match Lookup(refs, pos)
      case Some(h) => h
      case None =>
        match BestFrom(m, pos, refs, tol)
          case Some(b) => b.1
          case None => defaultHeight
  }

  /** `apply_reference_heights` on values: an empty table gives every column the default height. */
  function ReferenceHeights(m: Math, cols: seq<Column>, refs: seq<RefItem>, defaultHeight: real, tol: real): (r: seq<Column>)
    ensures |r| == |cols|
  {
    if |refs| == 0 then seq(|cols|, k requires 0 <= k < |cols| => cols[k].(height := defaultHeight))
    else seq(|cols|, k requires 0 <= k < |cols| => cols[k].(height := ReferenceHeight(m, cols[k], refs, defaultHeight, tol)))
  }

  /**
   * What each column receives: only its height changes; an exact entry wins; otherwise the
   * nearest entry strictly within tolerance; otherwise the default. The empty-table shortcut
   * agrees with the general rule.
   */
  lemma ReferenceHeightsFacts(m: Math, cols: seq<Column>, refs: seq<RefItem>, defaultHeight: real, tol: real, k: nat)
    requires k < |cols|
    ensures var c, r := cols[k], ReferenceHeights(m, cols, refs, defaultHeight, tol)[k];
      var pos := ColumnHeightDetection.PositionKey(c.location);
      && r == c.(height := r.height)
      && (forall j :: 0 <= j < |refs| && refs[j].0 == pos ==> exists i :: 0 <= i < |refs| && refs[i] == (pos, r.height))
      && ((forall j :: 0 <= j < |refs| ==> refs[j].0 != pos && RefDistance(m, pos, refs[j].0) >= tol) ==> r.height == defaultHeight)
      && ((forall j :: 0 <= j < |refs| ==> refs[j].0 != pos) && (exists j :: 0 <= j < |refs| && RefDistance(m, pos, refs[j].0) < tol) ==>
            exists i :: 0 <= i < |refs| && refs[i].1 == r.height && RefDistance(m, pos, refs[i].0) < tol
              && forall j :: 0 <= j < |refs| && RefDistance(m, pos, refs[j].0) < tol ==> RefDistance(m, pos, refs[i].0) <= RefDistance(m, pos, refs[j].0))
  {
    var pos := ColumnHeightDetection.PositionKey(cols[k].location);
    BestFromIsNearest(m, pos, refs, tol);
  }

  /** The best-match scan: items in order, a strictly closer item within tolerance replacing the best. */
  method FuzzyMatch(m: Math, pos: (int, int), refs: seq<RefItem>, tol: real) returns (bestMatch: Option<real>)
    ensures bestMatch == match BestFrom(m, pos, refs, tol) case None => None case Some(b) => Some(b.1)
  {
    bestMatch := None;
    var best: Option<(real, real)> := None;
    var bestDistance := 0.0;
    for i := 0 to |refs|
      invariant best == BestFrom(m, pos, refs[..i], tol)
      invariant bestMatch == match best case None => None case Some(b) => Some(b.1)
      invariant best.Some? ==> bestDistance == best.value.0
    {
      assert refs[..i + 1][..i] == refs[..i];
      var distance := m.sqrt(SquaredOffset(pos, refs[i].0));
      // `best == None` plays the initial `float('inf')`
      if distance < tol && (best.None? || distance < bestDistance) {
        bestDistance := distance;
        best := Some((distance, refs[i].1));
        bestMatch := Some(refs[i].1);
      }
    }
    assert refs[..|refs|] == refs;
  }

  /** `apply_reference_heights`: writes each column's height in place; the list is returned as it is. */
  method ApplyReferenceHeights(m: Math, columns: array<Column>, refs: seq<RefItem>, defaultHeight: real, tol: real)
    modifies columns
    ensures columns[..] == ReferenceHeights(m, old(columns[..]), refs, defaultHeight, tol)
  {
    if |refs| == 0 {
      for k := 0 to columns.Length
        invariant columns[..k] == ReferenceHeights(m, old(columns[..]), refs, defaultHeight, tol)[..k]
        invariant forall j :: k <= j < columns.Length ==> columns[j] == old(columns[j])
      {
        columns[k] := columns[k].(height := defaultHeight);
        assert columns[..k + 1] == columns[..k] + [columns[k]];
      }
      return;
    }
    for k := 0 to columns.Length
      invariant columns[..k] == ReferenceHeights(m, old(columns[..]), refs, defaultHeight, tol)[..k]
      invariant forall j :: k <= j < columns.Length ==> columns[j] == old(columns[j])
    {
      var pos := (Round(columns[k].location.x), Round(columns[k].location.y));
      var exact := Lookup(refs, pos);
      if exact.Some? {
        columns[k] := columns[k].(height := exact.value);
      } else {
        var bestMatch := FuzzyMatch(m, pos, refs, tol);
        if bestMatch.Some? {
          columns[k] := columns[k].(height := bestMatch.value);
        } else {
          columns[k] := columns[k].(height := defaultHeight);
        }
      }
      assert columns[..k + 1] == columns[..k] + [columns[k]];
    }
  }
}
