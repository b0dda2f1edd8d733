/**
 * Python's stable `sort(key=...)` / `sorted(...)` on a real-valued key, `sorted(set(...))`
 * of reals, and `np.median`, with the facts the detectors rely on: the result is
 * ordered, it is a permutation of the input, and a median lies between the extremes.
 */
module Sorting {
  import opened Numeric

  ghost predicate SortedBy<T>(s: seq<T>, key: T -> real)
  {
    forall i, j :: 0 <= i < j < |s| ==> key(s[i]) <= key(s[j])
  }

  /** Inserts `x` after every element whose key does not exceed `x`'s, which keeps equal keys in arrival order. */
  function InsertBy<T>(r: seq<T>, x: T, key: T -> real): (out: seq<T>)
    ensures multiset(out) == multiset(r) + multiset{x}
    ensures |out| == |r| + 1
    decreases |r|
  {
    if r == [] || key(r[|r| - 1]) <= key(x) then r + [x]
    else
      var rest := InsertBy(r[..|r| - 1], x, key);
      assert r == r[..|r| - 1] + [r[|r| - 1]];
      rest + [r[|r| - 1]]
  }

  /** A stable insertion sort: the model of Python's `list.sort(key=...)`. */
  function SortBy<T>(s: seq<T>, key: T -> real): (r: seq<T>)
    ensures |r| == |s| && multiset(r) == multiset(s)
  {
    if s == [] then []
    else
      assert s == s[..|s| - 1] + [s[|s| - 1]];
      InsertBy(SortBy(s[..|s| - 1], key), s[|s| - 1], key)
  }

  lemma {:induction false} InsertBySorted<T>(r: seq<T>, x: T, key: T -> real)
    requires SortedBy(r, key)
    ensures SortedBy(InsertBy(r, x, key), key)
    decreases |r|
  {
    if r == [] || key(r[|r| - 1]) <= key(x) {
    } else {
      var init := r[..|r| - 1];
      assert SortedBy(init, key);
      InsertBySorted(init, x, key);
      var rest := InsertBy(init, x, key);
      var last := r[|r| - 1];
      forall k | 0 <= k < |rest| ensures key(rest[k]) <= key(last) {
        assert rest[k] in multiset(init) + multiset{x};
        if rest[k] in multiset(init) {
          var i :| 0 <= i < |init| && init[i] == rest[k];
          assert r[i] == rest[k];
        }
      }
    }
  }

  /** The sorted sequence is ordered by the key. */
  lemma {:induction false} SortBySorted<T>(s: seq<T>, key: T -> real)
    ensures SortedBy(SortBy(s, key), key)
  {
    if s != [] {
      SortBySorted(s[..|s| - 1], key);
      InsertBySorted(SortBy(s[..|s| - 1], key), s[|s| - 1], key);
    }
  }

  /** Elements of a permutation are elements of the original. */
  lemma PermutationMembers<T>(a: seq<T>, b: seq<T>)
    requires multiset(a) == multiset(b)
    ensures forall k :: 0 <= k < |a| ==> a[k] in b
  {
    forall k | 0 <= k < |a| ensures a[k] in b {
      assert a[k] in multiset(a);
    }
  }

  function Identity(x: real): real
  {
    x
  }

  /** `sorted(xs)` of a sequence of reals. */
  function SortReals(s: seq<real>): (r: seq<real>)
    ensures |r| == |s| && multiset(r) == multiset(s)
    ensures forall i, j :: 0 <= i < j < |r| ==> r[i] <= r[j]
  {
    SortBySorted(s, Identity);
    SortBy(s, Identity)
  }

  /** `np.median` of a non-empty sequence: the middle of the sorted values, or the mean of the two middle ones. */
  function Median(s: seq<real>): real
    requires s != []
  {
    var t := SortReals(s);
    var n := |t|;
    if n % 2 == 1 then t[n / 2] else (t[n / 2 - 1] + t[n / 2]) / 2.0
  }

  /** A median is never below the smallest nor above the largest value. */
  lemma MedianBetween(s: seq<real>)
    requires s != []
    ensures SeqMin(s) <= Median(s) <= SeqMax(s)
  {
    var t := SortReals(s);
    var n := |t|;
    PermutationMembers(t, s);
    assert SeqMin(s) <= t[n / 2] <= SeqMax(s);
    if n % 2 == 0 {
      assert SeqMin(s) <= t[n / 2 - 1] <= SeqMax(s);
    }
  }

  /** The median of one value is that value. */
  lemma MedianSingleton(x: real)
    ensures Median([x]) == x
  {
    var t := SortReals([x]);
    assert x in multiset(t);
  }

  /** Drops every element equal to its predecessor. */
  function DedupAdjacent(s: seq<real>): (r: seq<real>)
    ensures |r| <= |s|
    ensures forall x :: x in r <==> x in s
    ensures forall k :: 0 <= k < |r| - 1 ==> r[k] != r[k + 1]
    ensures s != [] ==> r != [] && r[|r| - 1] == s[|s| - 1]
  {
    if |s| <= 1 then s
    else if s[|s| - 2] == s[|s| - 1] then
      var r := DedupAdjacent(s[..|s| - 1]);
      assert forall x :: x in s <==> x in s[..|s| - 1] by {
        assert s == s[..|s| - 1] + [s[|s| - 1]];
      }
      r
    else
      var r := DedupAdjacent(s[..|s| - 1]);
      assert s == s[..|s| - 1] + [s[|s| - 1]];
      r + [s[|s| - 1]]
  }

  lemma {:induction false} DedupSorted(s: seq<real>)
    requires forall i, j :: 0 <= i < j < |s| ==> s[i] <= s[j]
    ensures forall i, j :: 0 <= i < j < |DedupAdjacent(s)| ==> DedupAdjacent(s)[i] < DedupAdjacent(s)[j]
  {
    if |s| > 1 {
      var init := s[..|s| - 1];
      DedupSorted(init);
      if s[|s| - 2] != s[|s| - 1] {
        var r := DedupAdjacent(init);
        assert DedupAdjacent(s) == r + [s[|s| - 1]];
        forall k | 0 <= k < |r| ensures r[k] < s[|s| - 1] {
          assert r[k] in init;
          var i :| 0 <= i < |init| && init[i] == r[k];
          assert r[k] <= s[|s| - 2];
        }
        var out := r + [s[|s| - 1]];
        forall i, j | 0 <= i < j < |out| ensures out[i] < out[j] {
          if j < |r| {
            assert out[i] == r[i] && out[j] == r[j];
          } else {
            assert out[i] == r[i];
          }
        }
      }
    }
  }

  /** `sorted(set(xs))`: the distinct values in strictly increasing order. */
  function SortedDistinct(s: seq<real>): (r: seq<real>)
    ensures |r| <= |s|
    ensures forall x :: x in r <==> x in s
    ensures forall i, j :: 0 <= i < j < |r| ==> r[i] < r[j]
  {
    var t := SortReals(s);
    SameMembers(t, s);
    DedupSorted(t);
    DedupAdjacent(t)
  }

  lemma SameMembers(t: seq<real>, s: seq<real>)
    requires multiset(t) == multiset(s)
    ensures forall x :: x in t <==> x in s
  {
    forall x ensures x in t <==> x in s {
      assert x in t <==> x in multiset(t);
      assert x in s <==> x in multiset(s);
    }
  }
}
