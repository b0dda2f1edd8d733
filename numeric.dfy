/**
 * Real-number helpers shared by every module: absolute value, minimum and maximum,
 * Python's `round` and float `%`, sums and means, and the square root and `atan2`
 * functions the Python code takes from its `math` module.
 */
module Numeric {

  /** `math.pi`, the double closest to pi, written out exactly. */
  const Pi: real := 3.141592653589793

  function Abs(x: real): (r: real)
    ensures r >= 0.0 && (r == x || r == -x)
  {
    if x < 0.0 then -x else x
  }

  function Min(a: real, b: real): (r: real)
    ensures r <= a && r <= b && (r == a || r == b)
  {
    if a <= b then a else b
  }

  function Max(a: real, b: real): (r: real)
    ensures r >= a && r >= b && (r == a || r == b)
  {
    if a >= b then a else b
  }

  /**
   * The two transcendental functions the source imports from `math`. They cannot be
   * defined over Dafny's reals, so the model takes them as values and relies only on
   * the properties collected in `ValidMath`.
   */
  datatype Math = Math(sqrt: real -> real, atan2: (real, real) -> real)

  /** `sqrt` returns the non-negative square root of a non-negative argument. */
  ghost predicate ValidSqrt(sqrt: real -> real)
  {
    forall x :: 0.0 <= x ==> 0.0 <= sqrt(x) && sqrt(x) * sqrt(x) == x
  }

  /**
   * `atan2(y, x)` lies in [-pi, pi], has the sign of `y` off the x axis, takes its exact values
   * on the axes, and turning the vector around changes its magnitude from `a` to `pi - a`.
   */
  ghost predicate ValidAtan2(atan2: (real, real) -> real)
  {
    && (forall y, x :: -Pi <= atan2(y, x) <= Pi)
    && (forall y, x :: y > 0.0 ==> atan2(y, x) > 0.0)
    && (forall y, x :: y < 0.0 ==> atan2(y, x) < 0.0)
    && atan2(0.0, 0.0) == 0.0
    && (forall x :: x > 0.0 ==> atan2(0.0, x) == 0.0)
    && (forall x :: x < 0.0 ==> atan2(0.0, x) == Pi)
    && (forall y :: y > 0.0 ==> atan2(y, 0.0) == Pi / 2.0)
    && (forall y :: y < 0.0 ==> atan2(y, 0.0) == -Pi / 2.0)
    && (forall y1, x1, y2, x2 {:trigger atan2(y1, x1), atan2(y2, x2)} ::
          y2 == -y1 && x2 == -x1 && (x1 != 0.0 || y1 != 0.0) ==>
            Abs(atan2(y2, x2)) == Pi - Abs(atan2(y1, x1)))
  }

  ghost predicate ValidMath(m: Math)
  {
    ValidSqrt(m.sqrt) && ValidAtan2(m.atan2)
  }

  /** Sequence concatenation regroups freely. */
  lemma ConcatAssoc<T>(a: seq<T>, b: seq<T>, c: seq<T>)
    ensures (a + b) + c == a + (b + c)
  {
  }

  /** A non-empty sequence is its front plus its last element, also behind a prefix. */
  lemma SnocParts<T>(a: seq<T>, b: seq<T>)
    requires b != []
    ensures (a + b[..|b| - 1]) + [b[|b| - 1]] == a + b && b[..|b| - 1] + [b[|b| - 1]] == b
  {
  }

  lemma SqrtNonNeg(m: Math, x: real)
    requires ValidMath(m) && x >= 0.0
    ensures m.sqrt(x) >= 0.0 && m.sqrt(x) * m.sqrt(x) == x
  {
  }

  /** `sqrt` is determined by its defining property: any non-negative root is it. */
  lemma SqrtUnique(m: Math, x: real, r: real)
    requires ValidMath(m) && r >= 0.0 && r * r == x
    ensures m.sqrt(x) == r
  {
    var s := m.sqrt(x);
    assert s >= 0.0 && s * s == x;
    if s < r {
      SquareLess(s, r);
    } else if r < s {
      SquareLess(r, s);
    }
  }

  /** Multiplying both sides of `a <= b` by a non-negative factor keeps the order. */
  lemma MulLe(a: real, b: real, c: real)
    requires a <= b && c >= 0.0
    ensures a * c <= b * c && c * a <= c * b
  {
    var d := b - a;
    assert d * c >= 0.0;
    assert d * c == b * c - a * c;
  }

  /** Multiplying both sides of `a < b` by a positive factor keeps the strict order. */
  lemma MulLt(a: real, b: real, c: real)
    requires a < b && c > 0.0
    ensures a * c < b * c && c * a < c * b
  {
    var d := b - a;
    assert d * c > 0.0;
    assert d * c == b * c - a * c;
  }

  /** The sign rules for products that the solver does not always find by itself. */
  lemma MulSigns(a: real, b: real)
    ensures a >= 0.0 && b >= 0.0 ==> a * b >= 0.0
    ensures a > 0.0 && b > 0.0 ==> a * b > 0.0
    ensures a * a >= 0.0
    ensures a != 0.0 ==> a * a > 0.0
  {
    if a > 0.0 {
      MulLt(0.0, a, a);
      if b > 0.0 {
        MulLt(0.0, b, a);
      } else if b == 0.0 {
        assert a * b == 0.0;
      }
    } else if a < 0.0 {
      MulLt(a, 0.0, -a);
    }
  }

  /** Squaring is strictly increasing on the non-negative reals. */
  lemma SquareLess(a: real, b: real)
    requires 0.0 <= a < b
    ensures a * a < b * b
  {
    var d, e := b - a, b + a;
    assert d > 0.0 && e > 0.0;
    assert d * e > 0.0;
    assert d * e == b * b - a * a;
  }

  lemma SquareLe(a: real, b: real)
    requires 0.0 <= a <= b
    ensures a * a <= b * b
  {
    var d, e := b - a, b + a;
    assert d >= 0.0 && e >= 0.0;
    assert d * e >= 0.0;
    assert d * e == b * b - a * a;
  }

  lemma SqrtOfSquare(m: Math, a: real)
    requires ValidMath(m)
    ensures m.sqrt(a * a) == Abs(a)
  {
    assert Abs(a) * Abs(a) == a * a;
    SqrtUnique(m, a * a, Abs(a));
  }

  lemma SqrtZero(m: Math, x: real)
    requires ValidMath(m) && x >= 0.0
    ensures m.sqrt(x) == 0.0 <==> x == 0.0
  {
    if x == 0.0 {
      SqrtUnique(m, 0.0, 0.0);
    }
  }

  /** A square root stays below a non-negative bound exactly when its argument stays below the bound's square. */
  lemma SqrtLess(m: Math, d: real, t: real)
    requires ValidMath(m) && d >= 0.0 && t >= 0.0
    ensures m.sqrt(d) < t <==> d < t * t
  {
    var s := m.sqrt(d);
    assert s >= 0.0 && s * s == d;
    if s < t {
      SquareLess(s, t);
    } else {
      SquareLe(t, s);
    }
  }

  lemma SqrtLessEq(m: Math, d: real, t: real)
    requires ValidMath(m) && d >= 0.0 && t >= 0.0
    ensures m.sqrt(d) <= t <==> d <= t * t
  {
    var s := m.sqrt(d);
    assert s >= 0.0 && s * s == d;
    if s <= t {
      SquareLe(s, t);
    } else {
      SquareLess(t, s);
    }
  }

  lemma SqrtMonotone(m: Math, a: real, b: real)
    requires ValidMath(m) && 0.0 <= a <= b
    ensures m.sqrt(a) <= m.sqrt(b)
  {
    var sb := m.sqrt(b);
    assert sb >= 0.0 && sb * sb == b;
    SqrtLessEq(m, a, sb);
  }

  lemma SqrtMul(m: Math, a: real, b: real)
    requires ValidMath(m) && a >= 0.0 && b >= 0.0
    ensures m.sqrt(a * b) == m.sqrt(a) * m.sqrt(b)
  {
    var sa, sb := m.sqrt(a), m.sqrt(b);
    assert sa >= 0.0 && sa * sa == a;
    assert sb >= 0.0 && sb * sb == b;
    assert (sa * sb) * (sa * sb) == (sa * sa) * (sb * sb);
    SqrtUnique(m, a * b, sa * sb);
  }

  /**
   * Python's `round(x)` on an exact value: the nearest integer, and on a tie the even one
   * (round-half-to-even).
   */
  function Round(x: real): (r: int)
    ensures Abs(x - r as real) <= 0.5
    ensures Abs(x - r as real) == 0.5 ==> r % 2 == 0
  {
    var f := x.Floor;
    var d := x - f as real;
    if d < 0.5 then f
    else if d > 0.5 then f + 1
    else if f % 2 == 0 then f
    else f + 1
  }

  /** Python's float `x % y` for a positive divisor: the remainder of floored division. */
  function FMod(x: real, y: real): (r: real)
    requires y > 0.0
    ensures 0.0 <= r < y
    ensures x == r + (x / y).Floor as real * y
  {
    var q := x / y;
    assert q * y == x;
    FloorBound(x, y, q, q.Floor as real);
    x - q.Floor as real * y
  }

  /** With `q * y == x` and `k` the floor of `q`, `x - k * y` lies in [0, y). */
  lemma FloorBound(x: real, y: real, q: real, k: real)
    requires y > 0.0 && q * y == x && k <= q < k + 1.0
    ensures 0.0 <= x - k * y < y
  {
    FloorBoundLower(x, y, q, k);
    FloorBoundUpper(x, y, q, k);
  }

  lemma FloorBoundLower(x: real, y: real, q: real, k: real)
    requires y > 0.0 && q * y == x && k <= q
    ensures 0.0 <= x - k * y
  {
    var lo := q - k;
    assert lo >= 0.0;
    assert lo * y >= 0.0;
    assert lo * y == q * y - k * y;
  }

  lemma FloorBoundUpper(x: real, y: real, q: real, k: real)
    requires y > 0.0 && q * y == x && q < k + 1.0
    ensures x - k * y < y
  {
    var hi := k + 1.0 - q;
    assert hi > 0.0;
    assert hi * y > 0.0;
    assert hi * y == k * y + y - q * y;
  }

  /** `FMod` leaves a value already in [0, y) unchanged and maps y itself to 0. */
  lemma FModInRange(x: real, y: real)
    requires y > 0.0 && 0.0 <= x <= y
    ensures FMod(x, y) == if x == y then 0.0 else x
  {
    var q := x / y;
    assert q * y == x;
    if q < 0.0 {
      MulLt(q, 0.0, y);
    }
    if x == y {
      if q < 1.0 {
        MulLt(q, 1.0, y);
      } else if q > 1.0 {
        MulLt(1.0, q, y);
      }
      assert q.Floor == 1;
    } else {
      if q >= 1.0 {
        MulLe(1.0, q, y);
      }
      assert q.Floor == 0;
    }
  }

  /** Shifting the dividend by one divisor does not change the remainder. */
  lemma FModShift(x: real, y: real)
    requires y > 0.0
    ensures FMod(x - y, y) == FMod(x, y)
  {
    var q, q2 := x / y, (x - y) / y;
    assert q * y == x;
    assert q2 * y == x - y;
    assert (q - 1.0) * y == x - y;
    MulCancel(q2, q - 1.0, y);
    var k := q.Floor;
    assert q2.Floor == k - 1;
    assert (k - 1) as real * y == k as real * y - y;
  }

  /** Dividing a product by one of its non-zero factors leaves the other. */
  lemma DivMul(n: real, a: real, d: real)
    requires d != 0.0 && n == a * d
    ensures n / d == a
  {
    var q := n / d;
    assert q * d == n;
    MulCancel(q, a, d);
  }

  /** A non-zero factor can be cancelled from both sides of an equation. */
  lemma MulCancel(a: real, b: real, c: real)
    requires c != 0.0 && a * c == b * c
    ensures a == b
  {
    var pos := Abs(c);
    assert a * pos == b * pos;
    if a < b {
      MulLt(a, b, pos);
    } else if b < a {
      MulLt(b, a, pos);
    }
  }

  /** The sum of a sequence, accumulated from the left as Python's `sum` and `+=` loops do. */
  function Sum(s: seq<real>): real
  {
    if s == [] then 0.0 else Sum(s[..|s| - 1]) + s[|s| - 1]
  }

  lemma SumAppend(s: seq<real>, x: real)
    ensures Sum(s + [x]) == Sum(s) + x
  {
    assert (s + [x])[..|s|] == s;
  }

  /** `np.mean` / `sum(xs) / len(xs)` of a non-empty sequence. */
  function Mean(s: seq<real>): real
    requires s != []
  {
    Sum(s) / |s| as real
  }

  /** `min(xs)` of a non-empty sequence. */
  function SeqMin(s: seq<real>): (r: real)
    requires s != []
    ensures r in s && forall k :: 0 <= k < |s| ==> r <= s[k]
  {
    if |s| == 1 then s[0] else Min(SeqMin(s[..|s| - 1]), s[|s| - 1])
  }

  /** `max(xs)` of a non-empty sequence. */
  function SeqMax(s: seq<real>): (r: real)
    requires s != []
    ensures r in s && forall k :: 0 <= k < |s| ==> s[k] <= r
  {
    if |s| == 1 then s[0] else Max(SeqMax(s[..|s| - 1]), s[|s| - 1])
  }

  /** Every element between two bounds bounds the sum between the count times each. */
  lemma {:induction false} SumBounds(s: seq<real>, lo: real, hi: real)
    requires forall k :: 0 <= k < |s| ==> lo <= s[k] <= hi
    ensures |s| as real * lo <= Sum(s) <= |s| as real * hi
  {
    if s != [] {
      SumBounds(s[..|s| - 1], lo, hi);
      assert (|s| - 1) as real * lo + lo == |s| as real * lo;
      assert (|s| - 1) as real * hi + hi == |s| as real * hi;
    }
  }

  /** A mean lies between the smallest and the largest element. */
  lemma MeanBetween(s: seq<real>)
    requires s != []
    ensures SeqMin(s) <= Mean(s) <= SeqMax(s)
  {
    var n := |s| as real;
    SumBounds(s, SeqMin(s), SeqMax(s));
    DivBounds(Sum(s), n, SeqMin(s), SeqMax(s));
  }

  lemma DivBounds(total: real, n: real, lo: real, hi: real)
    requires n > 0.0 && n * lo <= total <= n * hi
    ensures lo <= total / n <= hi
  {
    var q := total / n;
    assert q * n == total;
    if q < lo {
      MulLt(q, lo, n);
    }
    if q > hi {
      MulLt(hi, q, n);
    }
  }
}
